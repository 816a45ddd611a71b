/**
 What holds of every screen the user can reach: the widget flags follow the
 state, the player is only ever started fresh and with the selected sound,
 the timer is there whenever a handler cancels it, and every number stays
 inside 32-bit ints and inside the exact range of a `float`.
 */
module Invariants {
  import opened Optional
  import opened Clock
  import opened MainActivity

  /** The action button's text in each state. */
  function LabelFor(st: AppState): (l: Label)
    ensures st == Stopped <==> l == Start
    ensures st == Started <==> l == Pause
    ensures st == Paused <==> l == Resume
    ensures st == Completed <==> l == Snooze
  {
    match st
    case Stopped => Start
    case Started => Pause
    case Paused => Resume
    case Completed => Snooze
  }

  predicate Inv(s: Activity) {
    // widget flags follow the state
    && (s.slidersEnabled <==> s.state == Stopped)
    && (s.resetVisible <==> s.state == Paused || s.state == Completed)
    && (s.TimerRunning() <==> s.state == Started)
    && s.actionLabel == LabelFor(s.state)
    // a handler that cancels the timer finds one
    && (s.state != Stopped ==> s.timer.CountDown?)
    // the player is fresh until the alarm goes off, and plays the selected sound
    && (s.state != Completed ==> s.player.phase == Prepared)
    && s.player.sound == s.alarmSound
    // the numbers stay within what the sliders can select
    && s.sliderMinutes <= MaxMinutes && s.sliderSeconds <= MaxSeconds
    && s.countdownValue == Duration(s.sliderMinutes, s.sliderSeconds)
    && s.currentCountdownValue <= MaxDuration
    && (s.timer.CountDown? ==> s.timer.millis <= 1000 * MaxDuration)
    // what the time view shows
    && s.shown <= MaxDuration
    && (s.state == Stopped ==> s.shown == s.countdownValue)
    && (s.state == Completed ==> s.currentCountdownValue == 0 && s.shown == 0)
  }

  /**
   Which events the platform can deliver: a disabled slider does not move and
   moves only within its range, a hidden button cannot be pressed, and only a
   running timer ticks, never reporting more time left than it was set for.
   */
  predicate Deliverable(s: Activity, e: Event) {
    match e
    case MinutesMoved(i) => s.slidersEnabled && i <= MaxMinutes
    case SecondsMoved(i) => s.slidersEnabled && i <= MaxSeconds
    case ActionPress => true
    case ResetPress => s.resetVisible
    case Tick(ms) => s.TimerRunning() && ms <= s.timer.millis
    case MenuSelect(_) => true
  }

  /**
   Every event the run reaches is deliverable in the screen it meets. A crash
   ends the run, so nothing is asked of the events after it; that no crash
   happens is what `RunPreservesInv` proves.
   */
  ghost predicate Admissible(s: Activity, events: seq<Event>)
    decreases |events|
  {
    if |events| == 0 then true
    else
      && Deliverable(s, events[0])
      && match Step(s, events[0])
         case Crashed(_) => true
         case Ok(t) => Admissible(t, events[1..])
  }

  lemma CreateEstablishesInv(minutes: nat, seconds: nat)
    requires minutes <= MaxMinutes && seconds <= MaxSeconds
    ensures Inv(Create(minutes, seconds))
  {
  }

  lemma MoveMinutesPreservesInv(s: Activity, i: nat)
    requires Inv(s) && Deliverable(s, MinutesMoved(i))
    ensures Inv(MoveMinutes(s, i))
  {
  }

  lemma MoveSecondsPreservesInv(s: Activity, i: nat)
    requires Inv(s) && Deliverable(s, SecondsMoved(i))
    ensures Inv(MoveSeconds(s, i))
  {
  }

  lemma ActionPreservesInv(s: Activity)
    requires Inv(s)
    ensures ActionPressed(s).Ok? && Inv(ActionPressed(s).next)
  {
  }

  lemma ResetPreservesInv(s: Activity)
    requires Inv(s) && Deliverable(s, ResetPress)
    ensures ResetPressed(s).Ok? && Inv(ResetPressed(s).next)
  {
  }

  /** A tick with under a second left completes the countdown. */
  lemma ZeroTickPreservesInv(s: Activity, ms: nat)
    requires Inv(s) && Deliverable(s, Tick(ms)) && ms < 1000
    ensures TickArrived(s, ms).Ok? && Inv(TickArrived(s, ms).next)
  {
  }

  /** A tick with a second or more left only updates the remaining time. */
  lemma CountingTickPreservesInv(s: Activity, ms: nat)
    requires Inv(s) && Deliverable(s, Tick(ms)) && ms >= 1000
    ensures TickArrived(s, ms).Ok? && Inv(TickArrived(s, ms).next)
  {
  }

  lemma MenuPreservesInv(s: Activity, item: MenuItem)
    requires Inv(s)
    ensures MenuSelected(s, item).Handled? ==> Inv(MenuSelected(s, item).next)
  {
  }

  /** No deliverable event crashes the screen, and each keeps the invariant. */
  lemma StepPreservesInv(s: Activity, e: Event)
    requires Inv(s) && Deliverable(s, e)
    ensures Step(s, e).Ok? && Inv(Step(s, e).next)
  {
    match e
    case MinutesMoved(i) => MoveMinutesPreservesInv(s, i);
    case SecondsMoved(i) => MoveSecondsPreservesInv(s, i);
    case ActionPress => ActionPreservesInv(s);
    case ResetPress => ResetPreservesInv(s);
    case Tick(ms) =>
      if ms < 1000 {
        ZeroTickPreservesInv(s, ms);
      } else {
        CountingTickPreservesInv(s, ms);
      }
    case MenuSelect(item) => MenuPreservesInv(s, item);
  }

  lemma {:induction false} RunPreservesInv(s: Activity, events: seq<Event>)
    requires Inv(s) && Admissible(s, events)
    ensures Run(s, events).Ok? && Inv(Run(s, events).next)
    decreases |events|
  {
    if |events| > 0 {
      StepPreservesInv(s, events[0]);
      RunPreservesInv(Step(s, events[0]).next, events[1..]);
    }
  }

  /**
   From the screen `onCreate` builds, any deliverable sequence of events runs
   without a crash to a screen whose flags agree with its state: sliders
   enabled exactly when stopped, reset shown exactly when paused or
   completed, timer running exactly when started.
   */
  lemma EveryRunIsConsistent(minutes: nat, seconds: nat, events: seq<Event>)
    requires minutes <= MaxMinutes && seconds <= MaxSeconds
    requires Admissible(Create(minutes, seconds), events)
    ensures Run(Create(minutes, seconds), events).Ok?
    ensures var s := Run(Create(minutes, seconds), events).next;
      && (s.slidersEnabled <==> s.state == Stopped)
      && (s.resetVisible <==> s.state == Paused || s.state == Completed)
      && (s.TimerRunning() <==> s.state == Started)
      && (s.PlayerPlaying() ==> s.state == Completed)
      && s.player.sound == s.alarmSound
  {
    CreateEstablishesInv(minutes, seconds);
    RunPreservesInv(Create(minutes, seconds), events);
    var s := Run(Create(minutes, seconds), events).next;
    assert Inv(s);
  }

  /**
   The time view always holds a five-character "MM:SS" that reads back as the
   seconds it was drawn for, a time the sliders can select; once completed it
   reads as zero.
   */
  lemma DisplayIsClock(s: Activity)
    requires Inv(s)
    ensures |s.Display()| == 5 && s.Display()[2] == ':'
    ensures ParseTime(s.Display()) == Some(s.shown) && s.shown <= MaxDuration
    ensures s.state == Completed ==> ParseTime(s.Display()) == Some(0)
  {
    DrawTimeRoundTrip(s.shown);
  }

  /**
   `time*1000` in the timer's construction fits a 32-bit int, and a tick's
   remaining milliseconds are below 2^24, so their `(float)` conversion before
   `Math.floor` is exact.
   */
  lemma ArithmeticFits(s: Activity, e: Event)
    requires Inv(s) && Deliverable(s, e)
    ensures 1000 * s.countdownValue < 0x8000_0000
    ensures 1000 * s.currentCountdownValue < 0x8000_0000
    ensures e.Tick? ==> e.remainingMillis < 0x100_0000
  {
  }

  /**
   The alarm is sounded only by a tick reporting less than a second left while
   started, and it starts a freshly prepared player bound to the sound
   currently selected.
   */
  lemma AlarmStartsOnlyFromZeroTick(s: Activity, e: Event)
    requires Inv(s) && Deliverable(s, e)
    requires !s.PlayerPlaying() && Step(s, e).Ok? && Step(s, e).next.PlayerPlaying()
    ensures e.Tick? && e.remainingMillis < 1000
    ensures s.state == Started && s.player.phase == Prepared
    ensures Step(s, e).next.player.sound == s.alarmSound
    ensures Step(s, e).next.state == Completed
  {
  }
}

/**
 The timer screen as an immutable record with one pure transition per UI
 event: the two sliders, the action button (start / pause / resume /
 snooze), the reset button, a tick of the running countdown timer, and the
 alarm-sound menu. Widgets become fields (enabled, visible, label, text),
 the countdown timer becomes a `Timer` value, the media player a `Player`
 value.

 The countdown-timer field of the screen starts out null; handlers that
 call `cancel()` on it return `Crashed(NullTimer)` when there is none.
 */
module MainActivity {
  import opened Optional
  import opened Clock

  datatype AppState = Stopped | Started | Paused | Completed

  datatype Sound = Foghorn | Rooster | Submarine

  /** The media player's life cycle, as far as the screen drives it. */
  datatype Phase = Prepared | Playing | Halted

  datatype Player = Player(sound: Sound, phase: Phase)

  /** The screen's countdown timer: never created yet, or created for `millis` and running or cancelled. */
  datatype Timer = NoTimer | CountDown(millis: nat, running: bool)

  /** Text of the action button. */
  datatype Label = Start | Pause | Resume | Snooze

  datatype MenuItem = SetFoghorn | SetRooster | SetSubmarine | OtherItem(id: int)

  datatype Fault = NullTimer

  datatype Activity = Activity(
    state: AppState,
    countdownValue: nat,          // seconds selected by the sliders
    currentCountdownValue: nat,   // seconds left, as of the last tick
    sliderMinutes: nat,
    sliderSeconds: nat,
    slidersEnabled: bool,
    resetVisible: bool,
    actionLabel: Label,
    shown: nat,                   // seconds the time view was last drawn for
    timer: Timer,
    alarmSound: Sound,
    player: Player)
  {
    predicate TimerRunning() {
      timer.CountDown? && timer.running
    }

    predicate PlayerPlaying() {
      player.phase == Playing
    }

    /** The text of the time view. */
    function Display(): string {
      DrawTime(shown)
    }
  }

  datatype Result = Ok(next: Activity) | Crashed(fault: Fault)

  datatype MenuOutcome = Handled(next: Activity) | Delegated

  datatype Event =
    | MinutesMoved(minutes: nat)
    | SecondsMoved(seconds: nat)
    | ActionPress
    | ResetPress
    | Tick(remainingMillis: nat)
    | MenuSelect(item: MenuItem)

  /** The slider positions and the selected sound are left alone. */
  predicate SameSettings(s: Activity, r: Activity) {
    && r.countdownValue == s.countdownValue
    && r.sliderMinutes == s.sliderMinutes
    && r.sliderSeconds == s.sliderSeconds
    && r.alarmSound == s.alarmSound
  }

  /** A fresh media player for `sound`, ready to start. */
  function NewPlayer(sound: Sound): (p: Player)
    ensures p.sound == sound && p.phase == Prepared
  {
    Player(sound, Prepared)
  }

  /** `cancel()` on the timer field. */
  function Cancel(t: Timer): (r: Option<Timer>)
    ensures t.NoTimer? <==> r.None?
    ensures r.Some? ==> t.CountDown? && r.value == CountDown(t.millis, false)
  {
    match t
    case NoTimer => None
    case CountDown(millis, _) => Some(CountDown(millis, false))
  }

  /** The screen after `onCreate`, with the sliders at their layout positions. */
  function Create(minutes: nat, seconds: nat): (s: Activity)
    ensures s.state == Stopped && s.actionLabel == Start
    ensures s.slidersEnabled && !s.resetVisible && !s.TimerRunning() && !s.PlayerPlaying()
    ensures s.countdownValue == Duration(minutes, seconds)
    ensures ParseTime(s.Display()) == Some(s.countdownValue)
    ensures s.alarmSound == Foghorn && s.player.sound == Foghorn && s.player.phase == Prepared
    ensures s.timer == NoTimer && s.currentCountdownValue == 0
    ensures s.sliderMinutes == minutes && s.sliderSeconds == seconds
  {
    var total := Duration(minutes, seconds);
    DrawTimeRoundTrip(total);
    Activity(Stopped, total, 0, minutes, seconds, true, false, Start,
             total, NoTimer, Foghorn, NewPlayer(Foghorn))
  }

  /** The minutes slider moved to `i`. */
  function MoveMinutes(s: Activity, i: nat): (r: Activity)
    ensures r.sliderMinutes == i && r.sliderSeconds == s.sliderSeconds
    ensures r.countdownValue == Duration(i, s.sliderSeconds)
    ensures r.shown == r.countdownValue
    ensures r.state == s.state && r.timer == s.timer && r.player == s.player
    ensures r.alarmSound == s.alarmSound && r.currentCountdownValue == s.currentCountdownValue
    ensures r.slidersEnabled == s.slidersEnabled && r.resetVisible == s.resetVisible
    ensures r.actionLabel == s.actionLabel
  {
    var total := Duration(i, s.sliderSeconds);
    s.(sliderMinutes := i, countdownValue := total, shown := total)
  }

  /** The seconds slider moved to `i`. */
  function MoveSeconds(s: Activity, i: nat): (r: Activity)
    ensures r.sliderSeconds == i && r.sliderMinutes == s.sliderMinutes
    ensures r.countdownValue == Duration(s.sliderMinutes, i)
    ensures r.shown == r.countdownValue
    ensures r.state == s.state && r.timer == s.timer && r.player == s.player
    ensures r.alarmSound == s.alarmSound && r.currentCountdownValue == s.currentCountdownValue
    ensures r.slidersEnabled == s.slidersEnabled && r.resetVisible == s.resetVisible
    ensures r.actionLabel == s.actionLabel
  {
    var total := Duration(s.sliderMinutes, i);
    s.(sliderSeconds := i, countdownValue := total, shown := total)
  }

  /** The action button was pressed; what it does depends on the state. */
  function ActionPressed(s: Activity): (r: Result)
    // start: lock the sliders and run a timer for the whole selected duration
    ensures s.state == Stopped ==>
      && r.Ok? && r.next.state == Started && r.next.actionLabel == Pause
      && !r.next.slidersEnabled && r.next.TimerRunning()
      && r.next.timer.millis == 1000 * s.countdownValue
      && r.next.resetVisible == s.resetVisible && r.next.player == s.player
    // pause: stop the timer, offer reset, keep the remaining time
    ensures s.state == Started ==>
      && (r.Crashed? <==> s.timer.NoTimer?)
      && (r.Ok? ==> && r.next.state == Paused && r.next.actionLabel == Resume
                    && r.next.timer == CountDown(s.timer.millis, false) && r.next.resetVisible
                    && r.next.slidersEnabled == s.slidersEnabled && r.next.player == s.player)
    // resume: a new timer for the seconds left, not the original duration
    ensures s.state == Paused ==>
      && r.Ok? && r.next.state == Started && r.next.actionLabel == Pause
      && r.next.TimerRunning() && r.next.timer.millis == 1000 * s.currentCountdownValue
      && !r.next.resetVisible
      && r.next.slidersEnabled == s.slidersEnabled && r.next.player == s.player
    // snooze: only silence the player
    ensures s.state == Completed ==>
      r == Ok(s.(player := s.player.(phase := Halted)))
    ensures r.Ok? ==> SameSettings(s, r.next) && r.next.shown == s.shown
    ensures r.Ok? ==> r.next.currentCountdownValue == s.currentCountdownValue
  {
    match s.state
    case Stopped =>
      Ok(s.(state := Started, actionLabel := Pause, slidersEnabled := false,
            timer := CountDown(s.countdownValue * 1000, true)))
    case Started =>
      (match Cancel(s.timer)
       case None => Crashed(NullTimer)
       case Some(t) =>
         Ok(s.(state := Paused, actionLabel := Resume, timer := t, resetVisible := true)))
    case Paused =>
      Ok(s.(state := Started, actionLabel := Pause,
            timer := CountDown(s.currentCountdownValue * 1000, true), resetVisible := false))
    case Completed =>
      Ok(s.(player := s.player.(phase := Halted)))
  }

  /** The reset button was pressed: back to the slider screen, whatever the state. */
  function ResetPressed(s: Activity): (r: Result)
    ensures r.Crashed? <==> s.timer.NoTimer?
    ensures r.Ok? ==>
      && r.next.state == Stopped && r.next.actionLabel == Start
      && r.next.slidersEnabled && !r.next.resetVisible
      && r.next.timer == CountDown(s.timer.millis, false)
      && r.next.player == NewPlayer(s.alarmSound) && r.next.alarmSound == s.alarmSound
      && r.next.sliderMinutes == s.sliderMinutes && r.next.sliderSeconds == s.sliderSeconds
      && r.next.countdownValue == Duration(s.sliderMinutes, s.sliderSeconds)
      && r.next.shown == r.next.countdownValue
      && r.next.currentCountdownValue == s.currentCountdownValue
  {
    var total := Duration(s.sliderMinutes, s.sliderSeconds);
    match Cancel(s.timer)
    case None => Crashed(NullTimer)
    case Some(t) =>
      Ok(s.(state := Stopped, actionLabel := Start, slidersEnabled := true,
            countdownValue := total, shown := total,
            player := NewPlayer(s.alarmSound), timer := t, resetVisible := false))
  }

  /** `blowAlarm`: start the player and show the completed screen. */
  function BlowAlarm(s: Activity): (r: Activity)
    ensures r.state == Completed && r.actionLabel == Snooze && r.resetVisible
    ensures r.PlayerPlaying() && r.player.sound == s.player.sound
    ensures SameSettings(s, r) && r.timer == s.timer
    ensures r.slidersEnabled == s.slidersEnabled && r.shown == s.shown
    ensures r.currentCountdownValue == s.currentCountdownValue
  {
    s.(player := s.player.(phase := Playing), state := Completed,
       actionLabel := Snooze, resetVisible := true)
  }

  /** A tick of the running timer reporting `ms` milliseconds remaining. */
  function TickArrived(s: Activity, ms: nat): (r: Result)
    ensures r.Ok? ==> r.next.currentCountdownValue == WholeSeconds(ms)
    ensures r.Ok? ==> r.next.shown == WholeSeconds(ms)
    ensures r.Ok? ==> SameSettings(s, r.next)
    // a second or more left: only the remaining time and its text change
    ensures ms >= 1000 ==>
      && r.Ok? && r.next.state == s.state && r.next.timer == s.timer
      && r.next.player == s.player && r.next.resetVisible == s.resetVisible
      && r.next.slidersEnabled == s.slidersEnabled && r.next.actionLabel == s.actionLabel
    // under a second left: cancel the timer and sound the alarm
    ensures ms < 1000 ==>
      && (r.Crashed? <==> s.timer.NoTimer?)
      && (r.Ok? ==> && r.next.state == Completed && r.next.actionLabel == Snooze
                    && r.next.timer == CountDown(s.timer.millis, false)
                    && r.next.PlayerPlaying() && r.next.player.sound == s.player.sound
                    && r.next.resetVisible && r.next.slidersEnabled == s.slidersEnabled)
  {
    var secs := WholeSeconds(ms);
    var drawn := s.(currentCountdownValue := secs, shown := secs);
    if secs == 0 then
      match Cancel(s.timer)
      case None => Crashed(NullTimer)
      case Some(t) => Ok(BlowAlarm(drawn.(timer := t)))
    else
      Ok(drawn)
  }

  /** The sound a preset menu item selects. */
  function Preset(item: MenuItem): Sound
    requires !item.OtherItem?
  {
    match item
    case SetFoghorn => Foghorn
    case SetRooster => Rooster
    case SetSubmarine => Submarine
  }

  /** A menu item was selected; items other than the three presets go to the host. */
  function MenuSelected(s: Activity, item: MenuItem): (r: MenuOutcome)
    ensures r.Delegated? <==> item.OtherItem?
    ensures r.Handled? ==>
      && r.next.alarmSound == Preset(item)
      && r.next.player == NewPlayer(Preset(item))
      && r.next.state == s.state && r.next.timer == s.timer
      && r.next.slidersEnabled == s.slidersEnabled && r.next.resetVisible == s.resetVisible
      && r.next.actionLabel == s.actionLabel && r.next.shown == s.shown
      && r.next.countdownValue == s.countdownValue
      && r.next.currentCountdownValue == s.currentCountdownValue
      && r.next.sliderMinutes == s.sliderMinutes && r.next.sliderSeconds == s.sliderSeconds
  {
    if item.OtherItem? then Delegated
    else
      var sound := Preset(item);
      Handled(s.(alarmSound := sound, player := NewPlayer(sound)))
  }

  /** One event, dispatched to its handler. A menu item the screen does not handle leaves it as is. */
  function Step(s: Activity, e: Event): Result {
    match e
    case MinutesMoved(i) => Ok(MoveMinutes(s, i))
    case SecondsMoved(i) => Ok(MoveSeconds(s, i))
    case ActionPress => ActionPressed(s)
    case ResetPress => ResetPressed(s)
    case Tick(ms) => TickArrived(s, ms)
    case MenuSelect(item) =>
      match MenuSelected(s, item)
      case Delegated => Ok(s)
      case Handled(t) => Ok(t)
  }

  /** A sequence of events, stopping at the first crash. */
  function Run(s: Activity, events: seq<Event>): Result
    decreases |events|
  {
    if |events| == 0 then Ok(s)
    else match Step(s, events[0])
      case Crashed(f) => Crashed(f)
      case Ok(t) => Run(t, events[1..])
  }
}

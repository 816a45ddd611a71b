# Annoying Timer: a verified model of the countdown screen

The app has a single screen, `MainActivity`. Two sliders pick a countdown of
minutes and seconds. An action button starts, pauses and resumes the
countdown, and silences the alarm ("snooze") once it has gone off. A reset
button returns to the slider screen. A periodic countdown timer ticks with
the milliseconds that remain. It redraws the time as "MM:SS" and sounds the
alarm when less than a second is left. A menu picks one of three alarm
sounds: foghorn, rooster or submarine.

The model is functional. The screen is an immutable record, `MainActivity.Activity`,
with these fields:

- the application state: STOPPED, STARTED, PAUSED or COMPLETED;
- `countdownValue` and `currentCountdownValue`;
- the two slider positions and whether the sliders are enabled;
- whether the reset button is visible;
- the action button's label;
- the number of seconds the time view was last drawn for;
- the countdown timer: never created yet, or created for some milliseconds and either running or cancelled;
- the selected alarm sound;
- the media player: its sound, and whether it is prepared, playing or stopped.

Each UI event has one pure transition function. The countdown-timer field
of the activity starts out null. So the handlers that call `cancel()` on it
return a `Result`, and the fault `NullTimer` stands for the Java
NullPointerException.

Modules:

- `Optional` (`optional.dfy`): an optional value, for a search or a reading that may find nothing.
- `Decimal` (`decimal.dfy`): decimal digit strings, with rendering and reading back.
- `Clock` (`clock.dfy`): slider positions to seconds, tick milliseconds to whole seconds, `drawTime`'s "MM:SS" text, and an independent reader `ParseTime` for that text.
- `MainActivity` (`main_activity.dfy`): the record, one transition per event, `Step` and `Run`.
- `Invariants` (`invariants.dfy`): the invariant every reachable screen satisfies, and which events the platform can deliver.
- `Scenarios` (`scenarios.dfy`): whole runs, such as a countdown ending in exactly one alarm, pause and resume, and changing the sound.

`Invariants.Deliverable` states what the host platform guarantees:

- a disabled slider does not move, and a slider stays within 0..59;
- a hidden reset button cannot be pressed;
- only a running timer ticks, and it never reports more time left than it was created for.

Under those guarantees no event ever reaches the `NullTimer` fault. Every
reachable screen keeps these invariants:

- the sliders are enabled exactly when the state is STOPPED;
- reset is visible exactly when the state is PAUSED or COMPLETED;
- the timer runs exactly when the state is STARTED;
- the player is only ever started while freshly prepared, and it plays the selected sound.

## Model

| member | source | states |
|---|---|---|
| Decimal.ToDecimal | app/src/main/java/io/northernlights/annoyingtimer/MainActivity.java:137 | `%d` gives a non-empty string of ASCII digits with no leading zero. It has one digit exactly below 10 and two digits exactly for 10..99. |
| Decimal.ParseToDecimal | app/src/main/java/io/northernlights/annoyingtimer/MainActivity.java:137 | Reading a number's decimal rendering gives the number back. |
| Decimal.ToDecimalParse | app/src/main/java/io/northernlights/annoyingtimer/MainActivity.java:137 | Every digit string without a leading zero is the rendering of its own value, which is the converse round trip. |
| Clock.Duration | app/src/main/java/io/northernlights/annoyingtimer/MainActivity.java:60 | The duration picked by the sliders gives back its minutes and seconds (`/60`, `%60`) when seconds < 60. It stays within 59:59 when the sliders do. |
| Clock.WholeSeconds | app/src/main/java/io/northernlights/annoyingtimer/MainActivity.java:117 | The whole seconds of a tick are the floor of ms/1000: `secs*1000 <= ms < secs*1000+1000`. They are zero exactly when less than a second remains. |
| Clock.SplitClock | app/src/main/java/io/northernlights/annoyingtimer/MainActivity.java:134-135 | `drawTime` splits a time into minutes and seconds with `0 <= seconds < 60` and `minutes*60 + seconds == time`. |
| Clock.SplitDuration | app/src/main/java/io/northernlights/annoyingtimer/MainActivity.java:134-135 | Splitting the slider duration `minutes*60+seconds` gives back the slider positions. |
| Clock.TwoDigits | app/src/main/java/io/northernlights/annoyingtimer/MainActivity.java:137 | `%02d` gives at least two ASCII digits, exactly two below 100, with no leading zero when there are more than two, and they read back as the number. |
| Clock.TwoDigitsParse | app/src/main/java/io/northernlights/annoyingtimer/MainActivity.java:137 | Every two-digit string is the `%02d` rendering of its value. |
| Clock.DrawTime | app/src/main/java/io/northernlights/annoyingtimer/MainActivity.java:133-140 | For a time below 6000 s the text has 5 characters: two digits, ':' at index 2, two digits. |
| Clock.DrawTimeRoundTrip | app/src/main/java/io/northernlights/annoyingtimer/MainActivity.java:133-140 | Reading the "MM:SS" text back with the independent reader `ParseTime` gives the time it was drawn for, for every non-negative time. |
| Clock.DrawTimeInjective | app/src/main/java/io/northernlights/annoyingtimer/MainActivity.java:133-140 | Different times are drawn as different texts. |
| Clock.DrawTimeCanonical | app/src/main/java/io/northernlights/annoyingtimer/MainActivity.java:133-140 | Every 5-character text of two digits, ':' and two digits below 60 reads as a time under 100 minutes, and it is exactly the text drawn for that time. With `Clock.DrawTimeRoundTrip`, this makes `drawTime` below 100 minutes a bijection onto the well-formed clock texts. |
| MainActivity.Cancel | app/src/main/java/io/northernlights/annoyingtimer/MainActivity.java:168 | `countDownTimer.cancel()` fails exactly when no timer was ever created. Otherwise it stops the timer and keeps its duration. |
| MainActivity.NewPlayer | app/src/main/java/io/northernlights/annoyingtimer/MainActivity.java:105-111 | `bootstrapPlayer` gives a freshly prepared player for the selected sound, ready to start. |
| MainActivity.Create | app/src/main/java/io/northernlights/annoyingtimer/MainActivity.java:251-260 | `onCreate` gives the first screen. It uses the field initialisers at lines 27 and 38-41 and `bootstrapSeekBars` at lines 53-62. The screen is STOPPED with label Start, sliders enabled at the given positions, and reset hidden. The timer field is still null and `currentCountdownValue` is 0. The player is freshly prepared, not playing, and the sound is the foghorn. The countdown is `minutes*60+seconds`, and its text reads back as that countdown. |
| MainActivity.MoveMinutes | app/src/main/java/io/northernlights/annoyingtimer/MainActivity.java:64-71 | Moving the minutes slider to `i` makes the countdown `i*60` plus the seconds slider and redraws it. State, timer, player, sound, remaining time, the enabled and visible flags and the label stay as they were. |
| MainActivity.MoveSeconds | app/src/main/java/io/northernlights/annoyingtimer/MainActivity.java:84-91 | Moving the seconds slider to `i` makes the countdown the minutes slider `*60 + i` and redraws it. State, timer, player, sound, remaining time, the enabled and visible flags and the label stay as they were. |
| MainActivity.ActionPressed | app/src/main/java/io/northernlights/annoyingtimer/MainActivity.java:150-193 | STOPPED goes to STARTED: sliders disabled, a running timer of exactly `countdownValue*1000` ms. STARTED goes to PAUSED: the same timer stays in the field, stopped, with its duration kept; reset is shown, and it fails only without a timer. PAUSED goes to STARTED: the new timer is for `currentCountdownValue*1000` ms, not the original duration, and reset is hidden. COMPLETED only stops the player. In every case the settings, the drawn time and `currentCountdownValue` are unchanged. |
| MainActivity.ResetPressed | app/src/main/java/io/northernlights/annoyingtimer/MainActivity.java:195-210 | From any state with a timer: STOPPED, label Start, sliders enabled, reset hidden, the same timer kept in the field but stopped, and a freshly prepared player for the selected sound. The countdown is recomputed from the sliders and redrawn. `currentCountdownValue` is kept. It crashes exactly when no timer exists. |
| MainActivity.BlowAlarm | app/src/main/java/io/northernlights/annoyingtimer/MainActivity.java:142-148 | The alarm starts the existing player on its sound, moves to COMPLETED, labels the button Snooze and shows reset. The settings, the timer, the slider flag, the drawn time and the remaining time are unchanged. |
| MainActivity.TickArrived | app/src/main/java/io/northernlights/annoyingtimer/MainActivity.java:116-125 | A tick sets and draws `currentCountdownValue = floor(ms/1000)`. With a second or more left nothing else changes. With less than a second left it cancels the timer, starts the player, moves to COMPLETED and shows reset, and it fails only without a timer. |
| MainActivity.MenuSelected | app/src/main/java/io/northernlights/annoyingtimer/MainActivity.java:213-242 | Each of the three presets sets the sound and recreates a freshly prepared player for it. State, timer, flags, label, slider positions, countdowns and display are untouched. Any other item goes to the host. |
| Invariants.CreateEstablishesInv | app/src/main/java/io/northernlights/annoyingtimer/MainActivity.java:38-41 | The initial STOPPED screen satisfies the invariant. |
| Invariants.MoveMinutesPreservesInv | app/src/main/java/io/northernlights/annoyingtimer/MainActivity.java:64-71 | A deliverable minutes-slider move keeps the invariant. |
| Invariants.MoveSecondsPreservesInv | app/src/main/java/io/northernlights/annoyingtimer/MainActivity.java:84-91 | A deliverable seconds-slider move keeps the invariant. |
| Invariants.ActionPreservesInv | app/src/main/java/io/northernlights/annoyingtimer/MainActivity.java:150-193 | From any screen satisfying the invariant the action button never crashes and keeps the invariant. |
| Invariants.ResetPreservesInv | app/src/main/java/io/northernlights/annoyingtimer/MainActivity.java:195-210 | A reset with the button visible never hits a null timer and keeps the invariant. |
| Invariants.ZeroTickPreservesInv | app/src/main/java/io/northernlights/annoyingtimer/MainActivity.java:121-124 | A tick with less than a second left, from a running timer, completes without crashing and keeps the invariant. |
| Invariants.CountingTickPreservesInv | app/src/main/java/io/northernlights/annoyingtimer/MainActivity.java:116-119 | A tick with a second or more left keeps the invariant. |
| Invariants.MenuPreservesInv | app/src/main/java/io/northernlights/annoyingtimer/MainActivity.java:213-234 | Picking a preset sound keeps the invariant. |
| Invariants.StepPreservesInv | app/src/main/java/io/northernlights/annoyingtimer/MainActivity.java:150-242 | No deliverable event crashes the screen, and each keeps the invariant. |
| Invariants.RunPreservesInv | app/src/main/java/io/northernlights/annoyingtimer/MainActivity.java:150-242 | Take a run in which every event it reaches is deliverable. The run never crashes, and it keeps the invariant. |
| Invariants.EveryRunIsConsistent | app/src/main/java/io/northernlights/annoyingtimer/MainActivity.java:150-210 | Take any run from the initial screen in which every event it reaches is deliverable. It never crashes, and at its end: sliders enabled iff STOPPED, reset visible iff PAUSED or COMPLETED, timer running iff STARTED, player playing only when COMPLETED, and the player's sound is the selected sound. |
| Invariants.DisplayIsClock | app/src/main/java/io/northernlights/annoyingtimer/MainActivity.java:133-140 | The time view always shows 5 characters with ':' at index 2. The text reads back as the drawn seconds, which never exceed 59:59, and as zero once completed. |
| Invariants.ArithmeticFits | app/src/main/java/io/northernlights/annoyingtimer/MainActivity.java:113-117 | `time*1000` never overflows a 32-bit int. A tick's milliseconds stay below 2^24, so the `(float)` cast in the floor is exact. |
| Invariants.AlarmStartsOnlyFromZeroTick | app/src/main/java/io/northernlights/annoyingtimer/MainActivity.java:142-148 | Only a tick with less than a second left, while STARTED, starts the player. The player it starts is freshly prepared, its sound is the selected one, and the screen becomes COMPLETED. |
| Scenarios.CountdownCompletes | app/src/main/java/io/northernlights/annoyingtimer/MainActivity.java:116-124 | Take a started countdown whose ticks report a second or more until a last tick with less. It stays started until that tick, then completes with the selected sound playing, the timer stopped and zero shown. The alarm starts exactly once. |
| Scenarios.CountdownFromSliders | app/src/main/java/io/northernlights/annoyingtimer/MainActivity.java:152-162 | Start a countdown of n >= 1 seconds from the slider screen and send one tick per second, each half a second into its second, so every tick reports time still left. It completes on the n-th tick with exactly one alarm. |
| Scenarios.NinetySeconds | app/src/main/java/io/northernlights/annoyingtimer/MainActivity.java:152-162 | With the sliders at 1:30, start followed by 90 ticks completes the countdown with exactly one alarm. |
| Scenarios.PauseThenResume | app/src/main/java/io/northernlights/annoyingtimer/MainActivity.java:164-183 | Pausing and resuming returns to STARTED with reset hidden. The new timer is for the seconds left, and both countdown values are unchanged. |
| Scenarios.PauseAtFortyFive | app/src/main/java/io/northernlights/annoyingtimer/MainActivity.java:174-183 | After a tick showing 45 s, pause and resume run a timer of exactly 45000 ms. |
| Scenarios.PickedSoundPlaysNext | app/src/main/java/io/northernlights/annoyingtimer/MainActivity.java:213-234 | Picking a sound on the completed screen keeps it COMPLETED. After reset, start and a countdown, the alarm plays the picked sound. |

## Left out

- Android view plumbing is not modelled: `findViewById`, `setText`, `setVisibility`, layouts, menu inflation (`onCreateOptionsMenu`) and the lifecycle. The time view holds the number of seconds it was drawn for, and its text is `DrawTime` of that number. The text of the alarm-sound label is not modelled, because it only names the selected sound.
- The two sliders' enabled flags are one field, because every handler sets both together.
- `MediaPlayer` is reduced to its sound and a prepared / playing / stopped phase. Its native resources, a `create` that fails, and the end of the clip are not modelled, because they belong to the platform's audio service.
- `CountDownTimer` scheduling is not modelled. Ticks are events that carry the remaining milliseconds, and whether and when they arrive is the platform's business. That includes the 250 ms interval, wall-clock timing and the empty `onFinish`. A countdown of 0:00 is one the platform may finish without any tick, and the model does not decide that case.
- The `(float)` cast and `Math.floor` are modelled as integer division of non-negative milliseconds. `Invariants.ArithmeticFits` shows that the milliseconds stay below 2^24, where the cast is exact.
- `Locale.ITALY` is treated as ASCII digits, because Italian formatting uses them for `%02d`.
- The slider ranges come from layout XML, which is not part of this model. The model assumes 0..59 for both sliders. It also assumes the first screen shows the reset button hidden and the label Start.
- Clock.DrawTime takes non-negative times only. Every caller passes a slider duration or a floored non-negative tick, so Java's truncating division and the sign in `%02d` for negative values are not modelled.
- Invariants.DisplayIsClock: on the completed screen it states that the text reads back as zero, not that it equals the literal "00:00". The two are equivalent by `Clock.DrawTimeCanonical`.
- The unreachable `default:` branch of the action switch is omitted, because the enum has exactly four values.
- `super.onOptionsItemSelected` for unknown menu items is the `Delegated` outcome, because the host's answer is not visible.

## Behaviour of the code

- Reset never assigns `currentCountdownValue`, and `MainActivity.ResetPressed` states that the value is kept. The first tick after the next start overwrites it. If a pause comes before that first tick, for instance after a 0:00 countdown that finishes without ticking, resume restarts from the old value.
- The alarm fires on the first tick that reports less than 1000 ms left, because the floored whole seconds are then 0.
- The slider listeners do not check the application state. They rely on the sliders being disabled outside STOPPED, which `Invariants.Deliverable` models.

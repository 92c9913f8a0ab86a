# Tomato clock and to-do list, modelled in Dafny

The widget has two independent parts, both in `script.js`:

- **The Pomodoro timer** (`PomodoroTimer`). It counts a work session and then a break down second by
  second and counts completed work sessions. Its state is `workTime` and `breakTime` in minutes,
  `currentTime` in seconds, `isRunning`, `isWorkSession` and `completedSessions`.
- **The to-do list** (`TodoList`). It is an ordered list of `{id, text, completed}` tasks, newest
  first, plus a `nextId` counter that hands out ids.

Files:

- `pomodoro.dfy` (module `Pomodoro`). `TimerState` holds the timer's fields. One function per
  transition (`Started`, `Paused`, `Rewound`, `SessionCompleted`, `Ticked`, `SettingsUpdated`)
  says how the transition changes that state. Lemmas about those functions follow, then the
  `updateDisplay` clock text (`FormatClock`). Last comes the class `Timer`, whose fields are the
  source's fields. Each of its methods updates them step by step and is proved to change
  `State()` exactly as its function says. The one-second interval callback is the method
  `Tick`, which the caller invokes.
- `todos.dfy` (module `Todos`). `Todo` is a task and `ListState` holds the list's fields.
  `FindIndex`, `Toggled`, `Without` and `CompletedCount` model `find`, the in-place flip,
  `filter` and the completed count. `Added`, `ToggledState` and `Deleted` are the transitions.
  The class `TodoList` holds `todos: seq<Todo>` and `nextId`, and its methods are proved
  against those functions. `WellFormed` is the list invariant: ids are distinct and all are
  below `nextId`. Every transition preserves it.
- `text.dfy` (module `Text`). It models the JavaScript string built-ins the core relies on:
  `String.prototype.trim` (with the ECMAScript WhiteSpace and LineTerminator characters),
  `Number.prototype.toString` on non-negative integers, and `padStart`.
- `optional.dfy` (module `Optional`). It holds `Option`, which stands for a storage key that
  is present or absent.

Four behaviours of the code a reader may not expect:

- `updateSettings` does not validate its inputs (script.js:59-61). The model takes the new
  durations as parameters and requires them to be positive. Invalid input is not rejected.
- `start` has no guard against a timer that is already running (script.js:72-77). Only the
  disabled start button keeps a second interval from being armed. `Started` sets `isRunning`
  and nothing else.
- `deleteTodo` saves through `saveTodos` (script.js:207-210, 247), so it rewrites the stored id
  counter too, with the same value. `Deleted` keeps `nextId` unchanged.
- The tick body (script.js:77-83) does not check `isRunning`, so `Ticked` and `Timer.Tick`
  do not require it either.

## Model

| member | source | states |
|---|---|---|
| `Pomodoro.Loaded` | script.js:2-57 | With no stored value: 25/5 minutes and counter 0. Each stored value replaces its default. The timer starts stopped, in a work session, with `workTime*60` seconds on the clock, and is `Valid`. |
| `Pomodoro.Timer.constructor` | script.js:2-15 | The new object's state is `Loaded` of the stored values. |
| `Pomodoro.Started` | script.js:72-73 | The timer is running. Countdown, phase, settings and counter are unchanged. There is no guard on an already-running timer. |
| `Pomodoro.Timer.Start` | script.js:72-85 | The new state is `Started` of the old one. |
| `Pomodoro.Paused` | script.js:87-92 | The timer is stopped. Nothing else changes. |
| `Pomodoro.Timer.Pause` | script.js:87-92 | The new state is `Paused` of the old one. |
| `Pomodoro.Rewound` | script.js:94-98 | The timer is stopped, and the clock shows the full length of the current phase (`workTime*60` or `breakTime*60`). Phase, counter and settings are unchanged. With positive durations the result is `Valid`. |
| `Pomodoro.Timer.Reset` | script.js:94-98 | The new state is `Rewound` of the old one. The method goes through `Pause` as the source does. |
| `Pomodoro.SessionCompleted` | script.js:100-114 | The timer is always stopped and the phase always flips. From work: counter +1 and `breakTime*60` on the clock. From a break: counter unchanged and `workTime*60` on the clock. Settings are kept. With positive durations the result is `Valid`. |
| `Pomodoro.Timer.SessionComplete` | script.js:100-114 | The new state is `SessionCompleted` of the old one. |
| `Pomodoro.Ticked` | script.js:77-83 | Above one second, a tick decrements the countdown by exactly 1 and changes nothing else. Otherwise the session completes on the decremented state. Settings never change. With positive durations the countdown is positive after every tick. |
| `Pomodoro.Timer.Tick` | script.js:77-83 | The new state is `Ticked` of the old one. |
| `Pomodoro.SettingsUpdated` | script.js:59-70 | The new durations are stored. A stopped timer gets the new full length of its current phase; a running one keeps its countdown. Run state, phase and counter are untouched. `Valid` is preserved. |
| `Pomodoro.Timer.UpdateSettings` | script.js:59-70 | The new state is `SettingsUpdated` of the old one with the given durations. |
| `Pomodoro.TicksKeepValid` | script.js:77-83 | From a valid timer, any number of ticks leaves the countdown positive and the settings unchanged. |
| `Pomodoro.TicksCountDown` | script.js:77-83 | `n` ticks with more than `n` seconds left take exactly `n` off the countdown and change nothing else. |
| `Pomodoro.TicksSplit` | script.js:77-83 | Ticking `m` times and then `n` times is the same as ticking `m + n` times. |
| `Pomodoro.TicksCompleteSession` | script.js:77-83 | After exactly as many ticks as seconds left, the state is the completed session. |
| `Pomodoro.WorkBreakCycle` | script.js:72-114 | Start a fresh work session and let it run out, then start the break and let it run out. The timer is back at a full, stopped work session with exactly one more completed session. |
| `Pomodoro.PauseThenStartResumes` | script.js:72-92 | Pause then start gives the same ticks as never pausing, so the countdown resumes where it was. |
| `Pomodoro.Pad2` | script.js:124 | `n.toString().padStart(2, '0')` is all digits and at least two long. It is exactly two long iff `n` is below 100, and it reads back as `n`. |
| `Pomodoro.Pad2Digits` | script.js:124 | Below 100 the padded text is the tens digit (a zero for a single digit) followed by the units digit. |
| `Pomodoro.FormatClock` | script.js:121-124 | The text is digits, a colon three characters from the end, then two digits. It is exactly five characters long iff the countdown is below 100 minutes; longer minute counts are not truncated. |
| `Pomodoro.FormatClockRoundTrip` | script.js:121-124 | Reading the text back gives 60 × minutes field + seconds field = the countdown, and the seconds field is below 60. |
| `Pomodoro.FormatClockDigits` | script.js:121-124 | Below 100 minutes the text is exactly: the two digits of the whole minutes, a colon, and the two digits of the remaining seconds. |
| `Pomodoro.FormatClockWholeMinutes` | script.js:121-124 | A whole number of minutes shows ":00" for the seconds, and minutes are never wrapped into hours. |
| `Pomodoro.FormatClockFullHour` | script.js:121-124 | 3600 seconds show as "60:00". |
| `Pomodoro.FormatClockExample` | script.js:121-124 | 65 seconds show as "01:05". |
| `Text.Trim` | script.js:213 | The result is a slice of the input after its leading whitespace, with only whitespace after it. It neither begins nor ends with whitespace. It is empty iff the input is all whitespace. |
| `Text.TrimIsUnique` | script.js:213 | Any slice with whitespace only outside it and none at its ends equals `Trim`, so the contract of `Trim` determines its result. |
| `Text.TrimIdempotent` | script.js:213 | Trimming twice equals trimming once. |
| `Text.TrimExamples` | script.js:213-217 | "" and "   " trim to empty (so adding them is a no-op), and " buy milk " trims to "buy milk". |
| `Text.DecimalString` | script.js:124 | `toString` of a non-negative integer is a non-empty digit string without a superfluous leading zero, and it reads back as the number. |
| `Text.DecimalStringOfValue` | script.js:124 | Conversely, a digit string without superfluous leading zeros is the `toString` of its own value. |
| `Text.DecimalStringLength` | script.js:122-124 | A number has at most two digits iff it is below 100. |
| `Text.PadStart` | script.js:124 | `padStart(width, fill)` pads to `width` with `fill` in front. It keeps the whole string at the end and never truncates. |
| `Text.LeadingZerosValue` | script.js:124 | Leading zeros do not change the value of a digit string. |
| `Text.PaddedDecimalValue` | script.js:124 | A zero-padded `toString` still reads back as the number. |
| `Todos.Loaded` | script.js:164-205 | The stored tasks and counter if present, else an empty list and 1. A fresh list is well-formed. |
| `Todos.TodoList.constructor` | script.js:164-173 | The new object's state is `Loaded` of the stored values. |
| `Todos.Added` | script.js:212-226 | Blank input (empty after trimming) changes nothing. Otherwise the list grows by one: in front is `{id: old nextId, text: trimmed, completed: false}`, the old list follows unchanged, and `nextId` is one more. Well-formedness (distinct ids, all below `nextId`) is preserved. |
| `Todos.TodoList.AddTodo` | script.js:212-231 | The new state is `Added` of the old one with the raw input. |
| `Todos.AddedNewestFirst` | script.js:219-226 | Adding A then B yields `[B, A]` in front of the old list, with consecutive ids. |
| `Todos.FindIndex` | script.js:234 | `find` by id gives the first position holding that id, or None exactly when no task has it. |
| `Todos.Toggled` | script.js:233-241 | Length, order, ids and texts are preserved. A task's completion flips iff it is the first task with the id. An unknown id leaves the list unchanged. |
| `Todos.ToggledState` | script.js:233-241 | Toggling changes only the list, as `Toggled` does, keeps `nextId`, and preserves well-formedness. |
| `Todos.TodoList.ToggleTodo` | script.js:233-241 | The new state is `ToggledState` of the old one. |
| `Todos.ToggleTwice` | script.js:233-241 | Toggling the same id twice restores the list. |
| `Todos.Without` | script.js:244 | `filter(t => t.id !== id)`: no task left carries the id, and the list never grows. |
| `Todos.WithoutMembers` | script.js:244 | The result holds exactly the tasks of the input whose id differs, and is no longer than the input. |
| `Todos.WithoutConcat` | script.js:244 | The filter distributes over concatenation, so the remaining tasks keep their relative order. |
| `Todos.WithoutAbsent` | script.js:244 | Deleting an id that no task has leaves the list unchanged. |
| `Todos.WithoutPresent` | script.js:243-244 | With distinct ids, deleting the id at position k yields the list with exactly that task removed, in order. |
| `Todos.WithoutKeepsWellFormed` | script.js:243-248 | Deleting keeps ids distinct and below the counter. |
| `Todos.Deleted` | script.js:243-248 | Deleting changes only the list, as `Without` does. `nextId` is unchanged, so ids are never reused. Well-formedness is preserved. |
| `Todos.TodoList.DeleteTodo` | script.js:243-248 | The new state is `Deleted` of the old one. |
| `Todos.CompletedCount` | script.js:270 | The number of completed tasks is at most the total. It is 0 iff no task is completed, and equals the total iff every task is. |
| `Todos.CompletedCountFlip` | script.js:236 | Flipping one task's completion moves the completed count by exactly one, in the direction of the flip. |
| `Todos.ToggledCount` | script.js:233-241 | Toggling a present id changes the completed count by exactly ±1. Toggling an absent id does not change it. |
| `Todos.Stats` | script.js:268-273 | The stats are (total, completed): total is the length, completed is `CompletedCount` and at most the total. An empty list gives (0, 0). |
| `Todos.DeleteOnlyTask` | script.js:243-273 | Deleting the only task leaves an empty list whose stats are (0, 0). |

## Left out

- DOM work is not modelled: element lookup, event binding, button enabling, `renderTodos`,
  `updateSessionType`, `updateCompletedSessions`, the displayed text itself and
  `document.title`. It is presentation only. Only the arithmetic and text of `updateDisplay`
  are modelled (`FormatClock`).
- `escapeHtml` is not modelled. It relies on the browser's HTML serializer, which is not visible.
- `setInterval`, `clearInterval` and `setTimeout` are not modelled. The one-second callback is
  the explicit `Timer.Tick` method. Interval handles are not modelled, so a second `start`
  while running, which would arm a second interval that `pause` does not clear, is not
  captured.
- `showNotification` and `playNotificationSound` are not modelled. They are UI and audio side
  effects, and the audio values are floating point.
- `localStorage`, `parseInt`, `JSON.parse` and `JSON.stringify` are not modelled. Stored values
  enter the constructors as `Option` parameters that are already parsed, and writes to storage
  are not modelled. The persist-and-reload round trip of the task collection is therefore not
  stated.
- Pomodoro.Loaded: requires stored durations to be positive. `parseInt` of arbitrary stored
  text (NaN, zero, negatives) is not modelled, and the timer invariant needs positive durations.
- Pomodoro.Timer.UpdateSettings: requires positive durations. It does not model what
  `parseInt` makes of empty or non-numeric input, which the source does not check.
- Todos.Loaded: tasks loaded from storage are taken as given. Their well-formedness is
  guaranteed only for the empty default, not for arbitrary stored JSON.
- The `createdAt` timestamp is not part of `Todo`, since it is a wall-clock value nothing reads.
- The global `timer` and `todoApp` objects created on `DOMContentLoaded` are not modelled.
- Text.Trim: the set of Unicode "Zs" space separators is fixed as listed in `IsWhitespace`.
  A later Unicode version could add more.
- Numbers are unbounded integers. JavaScript's floating-point numbers are not modelled, so
  neither are precision loss beyond 2^53 nor NaN.

# StarDash to-do list and sky theme, modelled in Dafny

StarDash is a one-page personal dashboard (`main.js`). This project models
the two parts of it that are logic rather than browser glue:

- **The to-do list.** It is an ordered list of `{text, done}` records kept
  under the storage key `'tasks'`. `addTask`, `toggleTask` and `deleteTask`
  each load the whole list with `getTasks`, change the loaded array, write it
  back with `saveTasks` and re-render it with `renderTasks`.
  - `addTask` trims the text box value first and ignores blank input.
  - A missing storage key reads as the empty list.
- **The sky theme.** After the sunrise-sunset service answers, the current
  time is compared with sunrise and sunset to choose dawn, dusk or the
  default sky. The choice is written into the CSS custom property
  `--sky-gradient` on the page body.

Modules:

- `JsString` (`js_string.dfy`): `String.prototype.trim` over ECMAScript
  WhiteSpace and LineTerminator characters.
- `Tasks` (`tasks.dfy`): the `Task` record and the list operations as
  specification functions:
  - the toggle (`Toggled`);
  - `Array.prototype.splice(start, 1)` with its handling of negative and
    past-the-end starts (`SpliceOne`);
  - the per-task display records of `renderTasks` (`Display`).
- `TodoList` (`todo_list.dfy`): class `TaskList`. Its fields are the storage
  entry, the text box value and the rendered items. It has one method per
  function of `main.js`, each proved against the functions in `Tasks`.
- `SkyTheme` (`sky_theme.dfy`): the three-way theme choice over
  millisecond timestamps. A timestamp that does not parse is `InvalidDate`,
  and every comparison with it is false, as with NaN in JavaScript.
- `SkyStyle` (`sky_style.dfy`): how the written value resolves under CSS
  custom-property rules, and the correction described under Findings.
- `Wrappers` (`wrappers.dfy`): `Option`.

Edge cases the model follows exactly:

- **Toggling a nonexistent index.** `toggleTask` reads `.done` of
  `undefined` and throws a TypeError before anything is saved. `ToggleTask`
  models that throw as `threw`, with nothing changed.
- **Deleting with any index.** `deleteTask` follows `splice` for every
  index:
  - a negative index counts back from the end;
  - an index past the end removes nothing;
  - the list is saved in every case, so a missing key becomes an empty
    stored list.
- **Sunrise and sunset boundaries.** The branch order gives the default sky
  at exactly sunrise and at exactly sunset.

## Model

| member | source | states |
|---|---|---|
| `JsString.Trim` | main.js:124 | the trimmed value is empty or begins and ends with a non-white-space character, and is no longer than the input |
| `JsString.TrimSplit` | main.js:124 | the input is the trimmed value with only white space before and after it |
| `JsString.TrimOfPadded` | main.js:124 | any non-empty text with non-space ends, padded by white space, trims to exactly that text (trim is determined by its characterisation) |
| `JsString.TrimEmptyIff` | main.js:124-125 | the trimmed value is empty, so addTask returns early, exactly when the input is all white space (including the empty input) |
| `JsString.TrimIdempotent` | main.js:124 | trimming a trimmed value changes nothing |
| `Tasks.NewTaskWellFormed` | main.js:124-127 | the task addTask builds has non-empty text with nothing left to trim |
| `Tasks.AppendKeepsWellFormed` | main.js:129 | pushing a well-formed task onto a well-formed list keeps every task well-formed |
| `Tasks.Toggled` | main.js:137 | flipping task i keeps the length and task i's text, negates task i's done flag, and leaves every other task unchanged |
| `Tasks.ToggledTwice` | main.js:137 | toggling the same task twice restores the original list |
| `Tasks.ToggledKeepsWellFormed` | main.js:137 | toggling keeps a well-formed list well-formed |
| `Tasks.SpliceStart` | main.js:144 | splice's start position: the index itself when in range, counted back from the end when negative, clamped to 0 and to the length |
| `Tasks.SpliceOne` | main.js:144 | `splice(start, 1)` at start position k inside the array leaves it one shorter, with elements before k in place and later ones shifted down by one; at k = length it leaves the array as it was |
| `Tasks.SpliceAtIndex` | main.js:142-145 | for a valid index i the result is `tasks[..i] + tasks[i+1..]`: one shorter, earlier tasks in place, later tasks shifted down by one |
| `Tasks.SplicePastEnd` | main.js:144 | an index at or past the end removes nothing |
| `Tasks.SpliceFromEnd` | main.js:144 | a negative index -n with n ≤ length removes the n-th task from the end |
| `Tasks.SpliceBeforeStart` | main.js:144 | a negative index reaching before the start removes the first task, if any |
| `Tasks.SpliceKeepsWellFormed` | main.js:144 | splicing keeps a well-formed list well-formed |
| `Tasks.Display` | main.js:162-165 | one display item per task in stored order, with the task's text, the index its click handlers use, and a line-through exactly when the task is done |
| `Tasks.DisplayInjective` | main.js:162-165 | two different task lists never render alike (the rendered list shows all of the stored list) |
| `TodoList.TaskList.constructor` | main.js:181 | at page load, storage holds what an earlier visit saved, the text box is empty, and the list shows the stored tasks |
| `TodoList.TaskList.GetTasks` | main.js:149-151 | a missing storage entry reads as the empty list, and a present one reads as the list it holds |
| `TodoList.TaskList.SaveTasks` | main.js:153-155 | the entry is overwritten with the whole list, and the next getTasks returns exactly that list |
| `TodoList.TaskList.RenderTasks` | main.js:157-179 | after rendering, the shown items are exactly `Display` of the stored list, and storage and text box are untouched |
| `TodoList.TaskList.AddTask` | main.js:122-133 | blank trimmed input changes nothing, and the text box keeps its value. Otherwise storage holds the old list plus `{text: trimmed, done: false}` at the end, the text box is empty and the list is re-rendered. Well-formed lists stay well-formed |
| `TodoList.TaskList.ToggleTask` | main.js:135-140 | it throws exactly for an index outside the list, and then nothing changes. Otherwise storage holds `Toggled` of the old list, the text box is unchanged and the list is re-rendered |
| `TodoList.TaskList.DeleteTask` | main.js:142-147 | storage holds `SpliceOne` of the old list, written back even when nothing was removed. The text box is unchanged and the list is re-rendered |
| `TodoList.AddTwoScenario` | main.js:122-133 | adding "A" and then "B" to an empty list stores `[{A, false}, {B, false}]` in that order |
| `SkyTheme.DawnIff` | main.js:43-44 | dawn exactly when now is strictly before a valid sunrise |
| `SkyTheme.DuskIff` | main.js:45-46 | dusk exactly when the dawn test fails and now is strictly after a valid sunset |
| `SkyTheme.DefaultIffInWindow` | main.js:43-49 | with valid times, the default sky exactly when sunrise ≤ now ≤ sunset |
| `SkyTheme.BoundariesAreDefault` | main.js:43-49 | when sunrise ≤ sunset, now = sunrise and now = sunset both give the default sky |
| `SkyTheme.DawnCheckedFirst` | main.js:43-45 | a time both before sunrise and after sunset gets dawn, because the dawn test comes first |
| `SkyTheme.InvalidTimesGiveDefault` | main.js:43-49 | unparsable sunrise and sunset (NaN dates) give the default sky |
| `SkyStyle.AsWrittenDefaultIsInvalid` | main.js:47-48 | as written, the default branch leaves the body's `--sky-gradient` invalid, whatever the root declares |
| `SkyStyle.ApplyTheme` | main.js:43-49 | the corrected write: dawn and dusk are written as before; the default removes the inline `--sky-gradient` and keeps every other inline declaration |
| `SkyStyle.ThemeShowsItsGradient` | main.js:43-49 | with the correction, each theme shows its own stylesheet gradient whatever was written inline before |
| `SkyStyle.DaytimeRefreshShowsSky` | main.js:41-49 | with the correction, a refresh between sunrise and sunset shows the stylesheet's default sky |

## Findings

| source | as written | input that shows it | evidently intended | confidence | as-written member | corrected member |
|---|---|---|---|---|---|---|
| main.js:47-48 | the default branch sets `--sky-gradient` on the body to `var(--sky-gradient)`, a custom property that refers to itself. That is a dependency cycle, so the property is invalid at computed-value time (section 2.3 of CSS Custom Properties for Cascading Variables Level 1) | any refresh where sunrise ≤ now ≤ sunset, e.g. now = sunrise | keep the stylesheet's default sky gradient, for example by removing the inline property | medium (the stylesheet is not part of this model), not executed | `SkyStyle.AsWrittenDefaultIsInvalid` | `SkyStyle.ThemeShowsItsGradient` |

## Left out

- The live clock (main.js:1-7) reads the wall clock and formats it with the locale; there is nothing to state beyond the library call.
- Geolocation, the two `fetch` calls, `.json()` decoding and the moon-phase text (main.js:10-24, 41, 52-53) are network and browser calls. The sunrise, sunset and current time enter `ChooseTheme` as parameters, and an unparsable timestamp is `InvalidDate`.
- The weather-widget link, its labels and the script re-injection (main.js:28-38) are DOM and third-party plumbing. `toFixed(2)` is floating-point formatting.
- The starfield (main.js:59-119) is built on floating-point positions and opacities, `Math.random`, canvas drawing and `requestAnimationFrame`. This includes the shooting star skipped by the splice inside `forEach` at main.js:97.
- DOM event wiring (`addEventListener`, `stopPropagation`, the delete button's label and margin) is left out. Only the list of per-task display items is modelled. `SetInput` stands for the user typing into the text box.
- The JSON text under the storage key is left out. Storage is an abstract entry whose next load returns exactly the list last saved. So the model does not capture a stored empty string also reading as `'[]'`, or text that is not a task array.
- Real storage returns a fresh parsed copy on every load. The model returns the stored value, because with value semantics there is no aliasing to capture.
- Races between overlapping refresh clicks come from the event loop and asynchronous handlers, not from sequential logic.
- Indices are integers. JavaScript's conversion of non-integer or non-numeric indices is not modelled, because the click handlers only pass `forEach` indices.
- The stylesheet is not part of this model. `SkyStyle` assumes it declares the three gradients at the root as literal values, and that the page declares no dawn or dusk gradient inline.
- SkyStyle.AsWrittenDefaultIsInvalid: covers only gradients declared at the root. A body-level `--sky-gradient` rule marked `!important` would outrank the inline declaration, so there would be no cycle. The cascade is not modelled.

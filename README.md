# Harpoon window registry in Dafny

Harpoon is a GNOME Shell extension with four slots, `a` to `d`. A "pick"
key stores the focused window in its slot. The matching "goto" key
activates the window stored there. This project models that registry and
the window lookup beside it, both from `extension.js`, and proves what they
promise.

- `wrappers.dfy`: module `Wrappers`, with `Option` (a JavaScript
  `null`/`undefined`) and `Result` (a value, or the exception a callback
  throws).
- `harpoon.dfy`: module `Harpoon`.
  - Window descriptors and the keybinding names.
  - `Array.prototype.find` as `FirstIndex`/`Find`, with `_get_window_by_wid`
    as `FindById`.
  - The registry as values: `FirstFocused`, `AfterPick`, `JumpTarget`,
    `Announcement`.
  - The class `HarpoonExtension`. Its field `windows` is an
    `array?<Option<WindowDesc>>`. `Enable` allocates it and `Disable` sets it
    to `null`. `Pick` overwrites one entry in place, using a `while` loop with
    an early `break` like the source's `for` loop. `Goto` only reads.
- `harpoon_properties.dfy`: module `HarpoonProperties`. It proves lemmas
  about one pick and one goto. It also replays any sequence of key presses
  (`Replay`) and compares the result with a reference definition read
  backwards (`LastPicked`). Three client methods drive the class the way the
  shell does.

Behaviour of the code that the model keeps:

- A pick with no focused window is not silent. Line 74 of `extension.js`
  reads `this.windows[index].wm_class` unconditionally. It re-announces the
  window the slot already held, or throws a `TypeError` when the slot is
  still empty. `Pick` returns that outcome.
- `disable` sets `this.windows` to `null` and never removes the keybindings.
  After it, both callbacks throw a `TypeError`. `Pick` and `Goto` return
  `Failure(TypeError)` in that state.
- A pick stores the whole descriptor from `List()`, so the model stores a
  `WindowDesc`.
- A failing `Activate` is not caught. `Activate` is outside this model (see
  below).

## Model

| member | source | states |
|---|---|---|
| Harpoon.FirstIndex | extension.js:104 | the position of the first element satisfying the predicate: in range, satisfies it, no earlier element does; none exactly when no element does |
| Harpoon.Find | extension.js:104 | `find` returns the first element of the list in order that satisfies the predicate; it returns nothing exactly when no element does |
| Harpoon.FindById | extension.js:103-105 | `_get_window_by_wid` returns the first window in list order whose id equals `winid`; it returns nothing exactly when no window has that id |
| Harpoon.FirstFocused | extension.js:66-71 | the window the pick loop selects is the first in list order whose `focus` is true; there is none exactly when no window has focus |
| Harpoon.HarpoonExtension.Enable | extension.js:57 | `enable` allocates a fresh registry of exactly four slots, all empty |
| Harpoon.HarpoonExtension.Disable | extension.js:99 | `disable` drops the registry (`this.windows` becomes `null`) |
| Harpoon.HarpoonExtension.Pick | extension.js:64-75 | the scan leaves the registry equal to `AfterPick` of the old one: only slot `index` takes the first focused window, if there is one. The notification names the window the slot then holds. Both throw `TypeError` when the registry is `null` or the slot is empty |
| Harpoon.HarpoonExtension.Goto | extension.js:81-87 | goto changes nothing (no `modifies`). It hands `Activate` the stored id when the slot is occupied, and makes no call when the slot is empty. It throws `TypeError` once the registry is `null` |
| HarpoonProperties.PickStoresFirstFocused | extension.js:66-71 | a pick stores the window at the first focused position; later focused windows are ignored because of the `break` |
| HarpoonProperties.PickWithoutFocusKeepsSlots | extension.js:66-72 | a pick over a list with no focused window, the empty list included, leaves every slot as it was |
| HarpoonProperties.PickTouchesOnlyItsSlot | extension.js:69 | a pick into slot `i` keeps four slots and changes none of the other three |
| HarpoonProperties.PickLastWriteWins | extension.js:69 | of two picks into one slot, the second one's focused window replaces the first one's result, if the second list has a focused window |
| HarpoonProperties.PickAnnouncement | extension.js:74 | the notification names the picked window's class. Without a focused window it names the class of the window already held, and it throws when the slot is empty |
| HarpoonProperties.GotoAfterEnableActivatesNothing | extension.js:57-84 | right after `enable`, no goto activates anything |
| HarpoonProperties.GotoAfterPick | extension.js:69-84 | a goto after a pick that found a focused window activates exactly that window's id |
| HarpoonProperties.Step | extension.js:64-87 | one key press keeps the registry at four slots, and a goto press leaves it unchanged |
| HarpoonProperties.Replay | extension.js:57-89 | replaying key presses from any four-slot registry keeps it at four slots |
| HarpoonProperties.ReplaySlot | extension.js:57-89 | after any sequence of key presses, each slot holds the window of the last pick into it that found a focused window, or what it held before |
| HarpoonProperties.GotoAfterKeyPresses | extension.js:57-89 | from `enable` on, a goto activates the id of the last effective pick into its slot, and nothing if there was none |
| HarpoonProperties.OtherSlotsIndependent | extension.js:58-69 | key presses on the other three slots never change slot `i` |
| HarpoonProperties.KeyNamesDistinct | extension.js:58-60 | keybinding naming only, not a registry property: the eight names `pick-window-a` to `goto-window-d` built from the letters are pairwise distinct |
| HarpoonProperties.PickThenGotoScenario | extension.js:64-86 | with an unfocused `kitty` (id 1) and a focused `firefox` (id 2), a pick into slot `c` announces `firefox`; a goto on `c` then activates id 2 |
| HarpoonProperties.PickEmptyListScenario | extension.js:64-83 | right after `enable`, picking over an empty window list throws on the notification; the slot stays empty, so its goto activates nothing |
| HarpoonProperties.AfterDisableScenario | extension.js:64-99 | after `disable`, the pick and goto callbacks both throw `TypeError` |

## Left out

- The `Indicator` panel button and its menu (extension.js:34-50), `log`, and showing the notification. `Pick` returns the notification text instead of showing it. Gettext's `_` is taken as the identity.
- Keybinding and settings plumbing: `Main.wm.addKeybinding`, `getSettings`, `addToStatusArea` (extension.js:56, 61-63, 78-80, 92). These are host calls. Pick and goto are plain methods, and only the key names are modelled.
- `List` and `Details` (extension.js:108-182). They copy fields of host objects by reflection. The window list is an input `seq<WindowDesc>`, and `FindById` takes the window actors as a list.
- The window commands (extension.js:184-305), `Activate` included. They call into the window manager. `Goto` returns the id it would pass to `Activate`. An `Activate` on a closed window throws from inside `Activate`, and that is not modelled.
- `init` (extension.js:309-313): host entry point only.
- JavaScript loose equality and truthiness: ids are integers, and `focus` is a boolean. A missing `has_focus` (which gives `undefined`) counts as `false`.
- Enabling again after `disable`: the shell may register the same key names a second time, and that behaviour belongs to the host.

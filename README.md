# Zellij status bar: event adapter, line composer and click router

A model of the core of a Zellij status-bar plugin in Dafny. The plugin keeps a
small state between host calls: the tab list, the 1-based index of the active
tab, the current mode information, the column of the last left click, a
one-shot "click pending" flag and the current time.

- `update` handles one host event. It changes some fields, says whether the bar
  must be redrawn, and may ask the host to switch tabs.
- `render` lays the segment views out on one line of `cols` columns. The
  segments are mode, layout, a one-column pad, the tab list, a spacer, the
  session and the clock. When the full tab list does not fit, a fixed warning
  block replaces it. While writing the blocks out, `render` tracks the column
  cursor and turns a pending click on a tab block into a tab switch. At the end
  it clears the pending flag.
- The block primitives (`Block`, `View`, the background filler, the spacer and
  the error block) come from `src/view.rs`.

Files:

- `wrappers.dfy` holds module `Wrappers`, the `Option` type.
- `view.dfy` holds module `View`, which models `src/view.rs`.
- `main.dfy` holds module `Plugin`, which models `src/main.rs`.

`Plugin` has three parts:

- `Step` is the pure specification of `update`, and `Compose`/`Draw` are the
  specification of `render`. The lemmas state the plugin's rules about them.
- The `State` class has the source's fields. Its methods `Update` and `Render`
  change those fields in place and are proved against `Step` and `Draw`.
- The `for` loop of `render` is the method `EmitBar`. Its loop invariants tie
  the column cursor, the text written so far and the requested switches to
  `SumLens`, `Concat` and `HitsFrom`.

`State.Render` cannot call the segment providers, because their code is not
part of this model. It takes their views as a `Segments` argument instead. It
requires each view's precomputed `len` to equal the sum of its blocks' widths,
because the computation of `occupied` trusts those totals. A requested tab
switch is a returned value: `Option<nat>` from `Update`, a sequence of targets
from `Render`. The model does not call the host.

Two behaviours of the code that the model keeps:

- The `else` branch of `Spacer::render` (src/view.rs:45-51, commented "We ran
  out of space") is meant for a line with no room left. But the room is
  computed first, as `total_len - left_len - right_len` on `usize`
  (src/view.rs:43). When `left_len + right_len > total_len`, that subtraction
  underflows before the `room > 0` test is reached. `View.Spacer` therefore
  requires `total >= left + right`. On the normal path this holds by
  construction (`left + right == occupied <= cols`). On the fallback path it
  fails when the terminal is narrower than even the fallback line. The model
  makes that render end in `Frame.Aborted`: no line, no tab switch, state
  unchanged. A debug build panics at the subtraction. A release build wraps
  around and asks `Bg::render` (src/view.rs:21-22) for a filler of nearly
  `usize::MAX` columns. `format!` cannot build a string that long, so the
  render stops there. Either way nothing is printed and the click flag is not
  cleared. `Plugin.FallbackCanUnderflow` gives concrete widths that reach
  this case.
- `Plugin.ComposedWidth` proves that every composed line is exactly `cols`
  wide. On the normal path that is at least `occupied`. On the fallback path
  it is less than `occupied`, since `occupied > cols` there.

## Model

| member | source | states |
|---|---|---|
| `View.DefaultBlock` | src/view.rs:11-16 | the derived default block has an empty body, width 0 and no tab index |
| `View.Concat` | src/main.rs:174-178 | the text the loop writes starts with the first block's body; its other properties are in `View.ConcatAppend` and `Plugin.EmitBar` |
| `View.ConcatAppend` | src/main.rs:174-178 | writing two runs of blocks in turn writes their texts in turn |
| `View.Spaces` | src/view.rs:22 | the padded text has exactly `n` characters, all blanks |
| `View.Bg` | src/view.rs:20-30 | the background block is exactly `cols` wide, is no tab, and (unstyled) is `cols` blanks |
| `View.Spacer` | src/view.rs:37-53 | defined only when `total >= left + right` (the `usize` subtraction underflows otherwise); no spacer exactly when `total == left + right`; otherwise a blank non-tab filler with `left + len + right == total` |
| `View.SpacerBlocks` | src/main.rs:164-169 | a spacer outcome adds its filler's width to the line, or nothing |
| `View.ErrorBlock` | src/view.rs:58-69 | the error block carries the message, is no tab, and is as wide as the display width supplied for the message |
| `Plugin.Initial` | src/main.rs:24-32 | the default state has no tabs, active index 0, click column 0 and no pending click |
| `Plugin.FirstActive` | src/main.rs:70 | the position of an active tab with no active tab before it, or `None` exactly when no tab is active |
| `Plugin.ScrollUpTarget` | src/main.rs:91 | the scroll-up target is `active + 1` when that tab exists, otherwise the last tab |
| `Plugin.SaturatingSub` | src/main.rs:95 | `a.saturating_sub(b)` is the least natural `r` with `a <= r + b`: `a - b` when `a >= b`, otherwise 0 |
| `Plugin.ScrollDownTarget` | src/main.rs:95 | the scroll-down target is `active - 1` (saturating), never below 1 |
| `Plugin.Step` | src/main.rs:52-111 | an event that requests no render changes no field and switches no tab; only scroll events switch tabs; only a tab update changes the tab list or active index; only a left click changes the click column or sets the pending flag. Per-event rules: `ModeUpdateRule`, `TabUpdateWithActiveTab`, `TabUpdateWithoutActiveTab`, `LeftClickRule`, `ScrollRule`, `TimerRule`, `OtherIgnored`; invariant: `StepPreservesConsistent`; in place: `State.Update` |
| `Plugin.InitialConsistent` | src/main.rs:24-32 | the default state satisfies the tab-list or active-index invariant |
| `Plugin.StepPreservesConsistent` | src/main.rs:52-111 | every event keeps the invariant: with no tabs the index is 0, otherwise it is 1 + the position of the first active tab |
| `Plugin.ModeUpdateRule` | src/main.rs:65-68 | a mode update always stores the new mode info, requests a render exactly when it differs from the old one, and switches no tab |
| `Plugin.ModeUpdateTwice` | src/main.rs:65-68 | the same mode update delivered twice in a row does not request a second render |
| `Plugin.TabUpdateWithActiveTab` | src/main.rs:69-76 | with an active tab, the index becomes 1 + the first active position (so between 1 and the tab count), the tab list is replaced, nothing else changes, and a render is requested exactly when index or list changed |
| `Plugin.TabUpdateWithoutActiveTab` | src/main.rs:77-79 | a tab list without an active tab leaves the whole state unchanged and requests no render |
| `Plugin.LeftClickRule` | src/main.rs:82-88 | a left click always records its column; it sets the pending flag and requests a render only when the column differs from the last one |
| `Plugin.ClickDebounce` | src/main.rs:82-88 | a second left click at the same column changes nothing, requests no render and no switch |
| `Plugin.ScrollRule` | src/main.rs:89-96 | scrolling requests a render, changes no field, and asks for the clamped scroll target |
| `Plugin.ScrollTargetsExist` | src/main.rs:89-96 | in a consistent state with tabs, both scroll targets are existing tabs (1 to the tab count), down at most and up at least the active index |
| `Plugin.TimerRule` | src/main.rs:99-104 | a timer tick stores the time it carries and requests a render exactly when the time changed |
| `Plugin.OtherIgnored` | src/main.rs:56-64 | permission results, other mouse events and unexpected events change nothing and request nothing |
| `Plugin.Fallback` | src/main.rs:138-141 | the fallback block carries the warning text, is no tab, and is as wide as that 54-column warning |
| `Plugin.Pad` | src/main.rs:127 | the pad is a one-column non-tab block |
| `Plugin.Occupied` | src/main.rs:131 | with well-formed views, `occupied` is the width of all blocks of the line except the spacer, the full tab list included |
| `Plugin.Overflows` | src/main.rs:137 | with well-formed views, the branch test `occupied > cols` holds exactly when the line with the full tab list and no filler is wider than `cols` |
| `Plugin.FallbackOccupied` | src/main.rs:143-146 | the sum of the fallback branch's `parts_len` pair is, with well-formed views, the width of the fallback line's blocks without a filler; `LeftLen` states that it is left plus right on overflow, and `FallbackComposition` that the line underflows exactly when `cols` is below it |
| `Plugin.Middle` | src/main.rs:137-160 | the blocks between the pad and the spacer are as wide as the fallback message when the tabs overflow and as the tab list otherwise; on overflow none of them is a tab |
| `Plugin.LeftLen` | src/main.rs:143-154 | the left width passed to the spacer is the width of the blocks written before it; left plus right is `occupied`, or the fallback line's width on overflow |
| `Plugin.RightLen` | src/main.rs:145-154 | the right width passed to the spacer is the width of the session and clock blocks written after it |
| `Plugin.Compose` | src/main.rs:127-172 | no line exactly when the tabs overflow and the fallback line is wider than `cols`; on overflow the line holds the fallback message. Layout: `NormalComposition`, `FallbackComposition`; width: `ComposedWidth`; imperative form: `ComposeBlocks` |
| `Plugin.NormalComposition` | src/main.rs:131-172 | when `occupied <= cols`, the line is mode, layout, pad, the full tab list, a filler of exactly `cols - occupied` (none when that is 0), session, clock |
| `Plugin.FallbackComposition` | src/main.rs:137-150 | when `occupied > cols`, the warning block replaces the tabs and the filler fills up to `cols`; there is no line when even the fallback line is wider than `cols` |
| `Plugin.FallbackCanUnderflow` | src/view.rs:43 | there are well-formed segment widths for which the fallback path's spacer subtraction underflows |
| `Plugin.ComposedWidth` | src/main.rs:131-172 | with well-formed views, every composed line is exactly `cols` columns wide |
| `Plugin.Hit` | src/main.rs:182-190 | one block requests at most one tab switch |
| `Plugin.HitsFrom` | src/main.rs:180-191 | a click left of the line's start or at or past its end switches to no tab; which tab an inner click switches to is `HitsFromResolves` |
| `Plugin.HitsFromResolves` | src/main.rs:177-192 | click routing yields exactly the 1-based index of the tab block whose column range `[start, start + len)` holds the click, and nothing when the click is in no tab block |
| `Plugin.HitsAtMostOne` | src/main.rs:177-192 | one click yields at most one tab switch, because the block ranges are disjoint |
| `Plugin.RoutingResolves` | src/main.rs:180-189 | for any line, the switches the router requests are at most one; there are none without a pending click or when the click is in no tab block, and otherwise exactly the struck tab's index + 1 |
| `Plugin.ClickExample` | src/main.rs:180-188 | tabs at `[0,10) [10,18) [18,25)`: column 12 switches to tab 2; column 25 is the exclusive end and switches to none |
| `Plugin.EmitBar` | src/main.rs:174-192 | the loop writes the blocks' bodies in order, ends with the cursor at the total width, and requests the tab switch of the struck block only when a click is pending, at most one |
| `Plugin.ComposeBlocks` | src/main.rs:127-172 | the imperative block building of `render` produces exactly the composed line, or stops where the spacer underflows |
| `Plugin.Draw` | src/main.rs:113-209 | a drawn frame requests at most one tab switch, none without a pending click, and with well-formed views fills exactly `cols` columns; skipping and aborting: `DrawSucceeds`; routing: `DrawnLine`; in place: `State.Render` |
| `Plugin.DrawnLine` | src/main.rs:113-209 | a drawn line is exactly `cols` wide, is its blocks' bodies in order, and switches to the struck tab (at most one) only when a click was pending |
| `Plugin.DrawSucceeds` | src/main.rs:113-160 | render skips exactly when there are no tabs and aborts exactly when the tabs overflow and the fallback line is also wider than `cols`; the choice depends only on the widths and `cols` |
| `Plugin.State.constructor` | src/main.rs:24-32 | a fresh state is the default state and satisfies the invariant |
| `Plugin.State.Update` | src/main.rs:52-111 | the in-place update leaves exactly the fields, render flag and tab switch that `Step` gives, and keeps the invariant |
| `Plugin.State.Render` | src/main.rs:113-209 | the frame is `Draw` of the old state; a drawn line is `cols` wide with at most one switch; only the pending-click flag changes, cleared when a line is drawn; with no tabs nothing changes |

## Left out

- Host calls: `set_selectable`, `set_timeout`, `request_permission`, `subscribe` and `register_plugin!` are host effects with nothing to compute. The log lines are also left out, and so is the permission-result branch, which only logs and sets selectability. That branch is part of `Event.Other`.
- `switch_tab_to` is not a host call in the model. It is the returned `switchTo` of `Update` and the `switches` of `Render`. The `as u32` casts (src/main.rs:91, 95 and 187) are not modelled. Zellij plugins run as wasm32, where `usize` is 32 bits, so these casts change no value.
- The final `print!` (src/main.rs:194-206) and its background-fill escape sequence are left out. That sequence is picked from the theme's palette and the host's colour representation. `Frame.Drawn.bar` is the line before that suffix.
- The ANSI styling applied by `style!(..).paint` is left out. Block bodies are the unstyled text.
- The Unicode display width is not computed. `View.ErrorBlock` takes it as a parameter. The fallback message is printable ASCII, so its width is its length, 54.
- The clock is left out. `DateTime::now()` reads the wall clock, so `Event.Timer` carries the time instead. The re-arming of the timer is a host call.
- The segment providers (`Mode`, `Layout`, `Tabs`, `Session`, `DateTime::render`) and `Palette::from` are not part of this model. Their views are inputs of `State.Render`. `ModeInfo`, `DateTime` and the tab details are abstract types with equality.
- The `rows` argument of `render` is unused by the source and is left out.
- Integer width: sums and `+ 1` on `usize` are unbounded here. Their overflow needs widths near `usize::MAX` and is not modelled. The one `usize` underflow that real widths can reach, in `Spacer::render`, is modelled as a precondition together with `Frame.Aborted`.

# Message bar of the hecto text editor

A Dafny model of the editor's transient status-message row
(`src/editor/messagebar.rs`). A posted message (for example "file saved") is
meant to be shown for five seconds and then blanked. As written (line 44), a
posted message is blanked only by a redraw requested for another reason; see
below. Two flags decide when the renderer has to write the row again:

- the explicit redraw flag, set by posting and reset by the renderer after drawing;
- the clearing mark `clear_after_expiry`, set by a draw that finds the message
  expired (so that the blanking write happens once) and also by every post.

The model has two layers in one module, `Messagebar` (`messagebar.dfy`):

- `MessageBar`, a class with the source's three fields (`currentMessage`,
  `needsRedraw`, `clearAfterExpiry`). Its methods update them in place as the
  Rust methods do. `NeedsRedraw` is a read-only predicate over the fields.
- A value view of the same state (`BarState`) with `Step`, the effect of one
  operation, and `Run`, the effect of a sequence of operations and the rows they
  write. Every class method states its new state as `Step` of its old state, so
  the lemmas about sequences of calls hold of the class too.

Two substitutions replace what the widget gets from outside:

- The clock is a `nat` reading in milliseconds passed to each operation, and the
  expiry threshold is `DefaultDuration = 5000`. `draw` reads the clock twice, at
  lines 58 and 61, so `Draw` takes two readings. `first` decides the clearing mark
  and `second` decides the text. A monotone clock (readings never go backwards) is
  a hypothesis of the lemmas that need it (`ClockFrom`), not a precondition of the
  operations.
- `Draw` returns the `RowWrite` (row and text) that it would hand to the terminal's
  row printer.

`update_message` sets the clearing mark to true (line 44). The model keeps this
as written. A consequence is proved in `PostedMessageNeverTriggersExpiry`: after
any posted message, the expiry trigger never requests a redraw again. A posted
message is therefore blanked only when some other request makes the renderer
draw. `SavedScenario` shows it for one case: at six seconds the message has
expired, but the bar still reports that it does not need a redraw.

## Model

| member | source | states |
|---|---|---|
| `Messagebar.Message.IsExpired` | src/editor/messagebar.rs:11-28 | a message is expired exactly when more than 5000 ms have passed since it was posted; the bound is strict |
| `Messagebar.ExpiryBoundary` | src/editor/messagebar.rs:26-28 | a message is not expired at any reading within five seconds of posting, and is expired at every reading after that |
| `Messagebar.ExpiryIsPermanent` | src/editor/messagebar.rs:26-28 | once a message is expired, it stays expired at every later reading |
| `Messagebar.MessageBar.constructor` | src/editor/messagebar.rs:17-36 | a new bar holds empty text stamped with its creation time, and both flags are false |
| `Messagebar.MessageBar.UpdateMessage` | src/editor/messagebar.rs:39-46 | the message becomes the given text stamped `now`, and the clearing mark and the explicit flag are both true |
| `Messagebar.MessageBar.SetNeedsRedraw` | src/editor/messagebar.rs:50-52 | only the explicit flag changes, and it takes the given value |
| `Messagebar.MessageBar.NeedsRedraw` | src/editor/messagebar.rs:53-55 | a redraw is owed exactly when the explicit flag is set, or when the clearing mark is unset and more than 5000 ms have passed since posting |
| `Messagebar.MessageBar.SetSize` | src/editor/messagebar.rs:56 | resizing changes no field |
| `Messagebar.MessageBar.Draw` | src/editor/messagebar.rs:57-68 | writes to row `origin`: an empty row if the message is expired at the second reading, else its text; sets the clearing mark if the message is expired at the first reading; changes neither the message nor the explicit flag |
| `Messagebar.DrawOutcome` | src/editor/messagebar.rs:57-68 | with one reading, a draw blanks the row and sets the clearing mark exactly when the message is expired, and shows the text otherwise; with two monotone readings, a draw that newly sets the clearing mark never shows the text |
| `Messagebar.MessageKeptWithoutUpdate` | src/editor/messagebar.rs:39-68 | across any operations that post nothing, the message is unchanged |
| `Messagebar.ClearAfterExpirySticks` | src/editor/messagebar.rs:39-68 | once the clearing mark is set, no sequence of operations resets it |
| `Messagebar.RedrawOwedUntilReset` | src/editor/messagebar.rs:45-55 | while nobody resets the explicit flag, it stays set and a redraw is owed at every time |
| `Messagebar.PostedMessageIsShown` | src/editor/messagebar.rs:39-65 | after a post, a redraw is owed at any later time until the flag is reset; after a post followed by any operations that post nothing, a draw within five seconds of the post writes exactly the posted text |
| `Messagebar.QuietStaysQuiet` | src/editor/messagebar.rs:53-60 | with the clearing mark set and the flag clear, no redraw is ever owed, however much time passes, while nothing is posted or requested |
| `Messagebar.PostedMessageNeverTriggersExpiry` | src/editor/messagebar.rs:44 | after any post, whatever operations follow, a poll answers with the explicit flag alone: the expiry trigger never fires |
| `Messagebar.ExpiredDrawsBlank` | src/editor/messagebar.rs:57-65 | once the current message is expired, every later draw writes an empty row, under a monotone clock and while nothing is posted |
| `Messagebar.DefaultBarClearsOnce` | src/editor/messagebar.rs:17-67 | a new bar owes no redraw for five seconds and owes one after that; one draw blanks the row, after which no redraw is owed and every further draw writes an empty row |
| `Messagebar.SavedScenario` | src/editor/messagebar.rs:39-67 | "Saved." posted at 0 is owed a redraw and drawn as "Saved."; after the flag is reset, no redraw is owed at 3 s, nor at 6 s when the message has expired |

## Left out

- Writing to the terminal (`Terminal::print_row`) and the I/O error it may return (line 67). `Draw` returns the row and text it would print; the error path is not modelled.
- The wall clock (`Instant::now`, `Duration`). The clock is a millisecond reading given to each operation, so sub-millisecond precision is not modelled.
- The drawing interface that this widget shares with sibling widgets, and the terminal `Size` type, are not part of this model. `SetSize` takes the two dimensions as plain numbers.
- The renderer that polls `NeedsRedraw`, draws, and resets the flag is outside the widget. It appears only as sequences of operations in the lemmas.
- Text encoding and length: the text is stored verbatim as a Dafny `string`.

# xlibmruby widgets, selection tracker and window service — a Dafny model

xlibmruby is a small X11 desktop front end to an embedded mruby interpreter.
The user types a line into a window, presses Return, and the interpreter's
answer appears in a result label. This project models the sequential core of
that program:

- **The selection tracker** (`SelectionService`). It keeps a map from
  component id to `{start, end, text}`, the one active id, and a
  "selecting" flag. Its queries return the normalised range, whether an id
  has a non-empty selection, and the selected text cut with
  `std::string::substr`, including the `std::out_of_range` that `substr`
  throws.
- **The widget buffer rules.**
  - `VisibleComponent` creates its offscreen buffer lazily, on the first draw.
  - `BufferedComponent` repaints only when its `needsRedraw_` flag is set and
    clears the flag afterwards.
  - `Label` invalidates on an actual text change only. Its press/motion/release
    gesture updates three selection fields, and its draw highlights
    `[start, end)` only when `0 <= start < end`. Its constructor and destructor
    acquire and release a font and a colour, and on failure release what was
    already acquired.
- **The window service** (`WindowService`).
  - The live input is a fixed 256-byte buffer plus a length.
  - Keys act as follows:
    - `q` quits;
    - Backspace erases the last byte;
    - Return runs the script;
    - any other key appends, but only while the length stays below 256.
  - Every event goes to every registered widget in registration order.
  - An Expose event redraws only when its `count` is 0.
  - A redraw first pushes the input and result texts into their labels. It
    then composes a frame on a back buffer, painting the widgets in
    registration order, copies it to the window, and frees the back buffer.

Files and modules:

- `xproto.dfy` — module `XProtocol`: the display connection as an `XServer`
  object. Every drawing, resource and flush call the core makes is appended
  to its request log, whether it succeeds or not. A failed allocation or
  lookup is logged with the `None` it returned. Its `live` set holds the
  resources allocated and not yet freed. Whether an allocation, a font
  lookup, a colour lookup or an `XftDrawCreate` succeeds is a constant of
  the server object.
- `selection.dfy` — module `SelectionTracking`.
- `components.dfy` — module `Components`: `VisibleComponent`,
  `BufferedComponent`, and the throwing constructor as `NewBufferedComponent`.
- `label.dfy` — module `Labels`. The gesture is a pure state machine
  (`GestureStep`, `GestureRun`) that the `Label` class's `HandleEvent` is
  proved against. A label's draw is specified by the request list
  `LabelRequests` that it sends.
- `window.dfy` — module `Windowing`:
  - The key handling and the loop are specified by the pure `EditInput`,
    `SessionStep` and `SessionRun`. `HandleKeyPress`, `Step` and `MainLoop`
    are proved against them.
  - A redraw is specified by the exact request list `FrameRequests` it sends.
    The loop's whole log is one such frame per redrawing event (`Frames`).
  - `PaintOrder` places each widget's requests in that list.
  - The 256-byte buffer is an `array<char>`, updated in place.
- `wrappers.dfy` — `Option`.

Throughout, the model follows the code as written. In places the code behaves
differently from what a reader of the design would expect:

- **Backspace on an empty input.** It is not a no-op. The backspace branch
  requires a non-empty input, so the key reaches the append branch, appends
  its byte (0x08) and redraws (`BackspaceOnEmptyAppends`).
- **Input capacity.** The live input holds at most 255 bytes. An append that
  would reach 256 is dropped whole.
- **Selection isolation.** After `startSelection("A", 5)` and
  `startSelection("B", 2)`, A's entry survives as `{5, 5, ""}`. But
  `hasSelection("A")` is false, because its start equals its end
  (`IsolationScenario`).
- **Selected text.** It is not clamped at its start: a range that starts past
  the end of the text makes `substr` throw (`OutOfRange`).
- **Label selection coordinates.** The label stores the event's x as it
  arrives, with no translation to local coordinates and no bounds check, so
  it may be negative.
- **Highlight.** It is not normalised. A right-to-left drag, or one starting
  at a negative x, is not highlighted, and the rectangle is filled on the
  window rather than on the drawable being painted.
- **`needsRedraw_` and painting.** `Label::draw` replaces
  `BufferedComponent::draw` and ignores the flag. Setting a label's text
  marks it stale, but the flag never decides whether the label paints: every
  draw sends its current text.

## Model

| member | source | states |
|---|---|---|
| XProtocol.XServer.NextPixmap | src/services/window_service.cpp:103 | the id `XCreatePixmap` returns is `None` exactly when pixmaps cannot be created, and otherwise is not live |
| XProtocol.XServer.CreatePixmap | src/gui/buffered_component.cpp:8 | returns the predicted id, logs the request, and marks the id live only on success |
| XProtocol.XServer.FreePixmap | src/gui/visible_component.hpp:12 | the pixmap is no longer live and the free is logged |
| XProtocol.XServer.OpenFont | src/gui/label.cpp:23 | `XftFontOpenName` yields `None` exactly for a name it cannot open, otherwise a fresh live id |
| XProtocol.XServer.AllocColor | src/gui/label.cpp:29-33 | `XftColorAllocName` fails exactly for a name it cannot allocate, otherwise a fresh live id |
| XProtocol.XServer.CloseFont | src/gui/label.cpp:35 | the font is no longer live and the close is logged |
| XProtocol.XServer.FreeColor | src/gui/label.cpp:42-45 | the colour is no longer live and the free is logged |
| SelectionTracking.Normalize | src/services/selection_service.cpp:32-33 | the pair is ordered and is a permutation of the entry's two positions |
| SelectionTracking.Substr | src/services/selection_service.cpp:34 | `substr` throws exactly when the position is past the end; otherwise its length is `min(count, size - pos)` and its characters are the text's from `pos` on |
| SelectionTracking.SelectionService.constructor | src/services/selection_service.hpp:16-18 | the tracker starts with an empty map and an empty active id, and is not selecting |
| SelectionTracking.SelectionService.StartSelection | src/services/selection_service.cpp:5-9 | the id becomes active and selecting; its entry is reset to `{p, p, ""}` (the text is not kept); every other entry is unchanged and no other key appears |
| SelectionTracking.SelectionService.UpdateSelection | src/services/selection_service.cpp:11-16 | a no-op unless selecting with a non-empty active id; otherwise only the active entry's end moves (a missing entry is default-inserted first), and start, text and every other entry are kept |
| SelectionTracking.SelectionService.EndSelection | src/services/selection_service.cpp:18-20 | clears only the selecting flag; the active id and the entries stay |
| SelectionTracking.SelectionService.SetComponentText | src/services/selection_service.cpp:22-27 | replaces the text of an existing entry only; the key set and every other entry are unchanged, so an unknown id creates nothing |
| SelectionTracking.SelectionService.GetSelectedText | src/services/selection_service.cpp:29-37 | `""` when nothing is active; out of range exactly when the normalised start is past the text; otherwise the text from the normalised start to `min(end, size)` |
| SelectionTracking.SelectionService.HasSelection | src/services/selection_service.cpp:39-42 | true exactly when the id has an entry whose normalised range is non-empty, which is the same as start != end |
| SelectionTracking.SelectionService.GetSelectionRange | src/services/selection_service.cpp:44-51 | `(0, 0)` when nothing is active; otherwise the normalised (min, max) of the active entry, ordered, and non-empty exactly when the active id has a selection |
| SelectionTracking.SelectionService.ClearSelections | src/services/selection_service.cpp:53-55 | the map is empty |
| SelectionTracking.IsolationScenario | src/services/selection_service.cpp:5-16 | starting on B after A keeps A's entry `{5, 5, ""}`, which is not a selection; B has one and the range is B's `(2, 9)` |
| SelectionTracking.ReleasedDragScenario | src/services/selection_service.cpp:18-51 | after a right-to-left drag and release the range is normalised and the selected text is still answered |
| Components.VisibleComponent.constructor | src/gui/visible_component.hpp:6-8 | the buffer is `None` right after construction |
| Components.VisibleComponent.UpdateBuffer | src/gui/visible_component.hpp:18 | the subclass hook leaves its rendered pixmap in the buffer and is counted |
| Components.VisibleComponent.Draw | src/gui/visible_component.hpp:22-28 | calls `updateBuffer` exactly when the buffer is `None` and never regenerates an existing one; always copies `width x height` to `(x, y)` of the target |
| Components.VisibleComponent.Dispose | src/gui/visible_component.hpp:10-14 | frees the buffer only if one was produced |
| Components.BufferedComponent.constructor | src/gui/buffered_component.cpp:4-6 | a new component is stale and has painted nothing |
| Components.BufferedComponent.DrawOnBuffer | src/gui/buffered_component.hpp:15 | the paint hook, counted per call |
| Components.BufferedComponent.Draw | src/gui/buffered_component.cpp:20-27 | paints exactly when the flag was set, always leaves it clear, and always copies `width x height` to `(0, 0)` |
| Components.BufferedComponent.InvalidateBuffer | src/gui/buffered_component.cpp:29-31 | the flag is set, whatever it was, so invalidating twice is invalidating once |
| Components.BufferedComponent.Dispose | src/gui/buffered_component.cpp:14-18 | frees the buffer if it is not `None` |
| Components.NewBufferedComponent | src/gui/buffered_component.cpp:4-12 | fails exactly when the allocation yields `None`, leaking nothing; otherwise the component owns a fresh live buffer and is stale |
| Components.DrawTwice | src/gui/buffered_component.cpp:20-27 | two draws with no invalidation between them paint exactly when the component was stale, and the second never paints |
| Components.InvalidateTwiceThenDraw | src/gui/buffered_component.cpp:20-31 | invalidating twice and drawing paints exactly once |
| Components.DrawAfterBufferExists | src/gui/visible_component.hpp:22-28 | once a buffer exists, further draws never call `updateBuffer` |
| Labels.GestureStep | src/gui/label.cpp:79-91 | the transitions: a Button1 press selects from its x; another button changes nothing; a motion while selecting moves only the end; a release while selecting keeps the range; an idle label ignores everything but a press |
| Labels.GestureStepIdempotent | src/gui/label.cpp:79-91 | delivering the same event twice equals delivering it once |
| Labels.GestureRunAppend | src/gui/label.cpp:79-91 | running two event sequences one after the other equals running their concatenation |
| Labels.GestureRunSnoc | src/gui/label.cpp:79-91 | one more event is one more step |
| Labels.MotionsMoveEnd | src/gui/label.cpp:85-87 | motions while selecting leave the end at the last motion's x and change nothing else |
| Labels.DragKeepsRange | src/gui/label.cpp:79-91 | press, motions, release leaves the label idle with the range from the press to the last motion; it is highlighted exactly when it runs left to right from a non-negative x |
| Labels.Highlight | src/gui/label.cpp:70-73 | a rectangle exactly when `0 <= start < end`, spanning start to end, 12 above the baseline and 15 high |
| Labels.LabelRequestsShape | src/gui/label.cpp:51-77 | the attempt to create an Xft draw on the target always comes first, and nothing follows it when that fails; otherwise the text is drawn next on the target and the draw is released last; a fill exists exactly when the highlight rule holds, and every fill goes to the window with a positive width |
| Labels.Label.constructor | src/gui/label.cpp:5-19 | position, text, font and colour as given; no invalidation yet |
| Labels.Label.SetText | src/gui/label.hpp:14-19 | the text becomes `t`; the label is invalidated exactly when the text changed, and is otherwise untouched |
| Labels.Label.HandleEvent | src/gui/label.cpp:79-91 | the three selection fields take exactly one `GestureStep` |
| Labels.Label.Draw | src/gui/label.cpp:51-77 | sends exactly the label's `LabelRequests` for its current text and selection, including a failed `XftDrawCreate` |
| Labels.Label.Dispose | src/gui/label.cpp:40-49 | frees the colour, then closes the font only if there is one |
| Labels.NewLabel | src/gui/label.cpp:5-38 | fails exactly when the font or the colour cannot be had; a colour failure closes the font already opened, so nothing leaks; on success the label owns a font and a colour that were not live before, and nothing else becomes live |
| Labels.SetTextTwice | src/gui/label.hpp:14-19 | setting the same text twice invalidates at most once |
| Windowing.EditInput | src/services/window_service.cpp:137-148 | an empty lookup, `q` and Return leave the input alone; otherwise the input loses its last byte or gains the bytes, the latter only while it stays below 256 |
| Windowing.BackspaceUndoesAppend | src/services/window_service.cpp:139-148 | typing a plain character and then backspace restores the input |
| Windowing.BackspaceOnEmptyAppends | src/services/window_service.cpp:139-148 | backspace on an empty input appends its own bytes |
| Windowing.SessionStep | src/services/window_service.cpp:73-79 | only a key press changes the session; quit exactly on `q` with a non-empty lookup, without editing; Return stores the script's answer for the current input |
| Windowing.SessionRunKeepsBound | src/services/window_service.cpp:145-148 | no event sequence takes the input to 256 bytes or beyond |
| Windowing.QuitIgnoresRest | src/services/window_service.cpp:63-89 | after the quit key, further events change nothing |
| Windowing.SessionRunStep | src/services/window_service.cpp:63-89 | while the loop has not quit, it takes one `SessionStep` per event |
| Windowing.RedrawCountSnoc | src/services/window_service.cpp:74-78 | one more event adds one redraw exactly when it is a last Expose or a non-quit key with a non-empty lookup |
| Windowing.PaintRequestsSnoc | src/services/window_service.cpp:119-121 | painting one more widget appends its requests |
| Windowing.PaintRequestsAppend | src/services/window_service.cpp:119-121 | painting two widget lists one after the other sends what painting their concatenation sends |
| Windowing.PaintOrder | src/services/window_service.cpp:119-121 | each widget's requests come after every earlier widget's and before every later widget's |
| Windowing.FrameLayout | src/services/window_service.cpp:103-129 | a frame creates the back buffer, clears it white, attempts one Xft draw on it, paints the widgets contiguously inside that draw (only when it succeeds), copies to the window, frees the buffer and flushes |
| Windowing.FramesOfAtMostOne | src/services/window_service.cpp:74-78 | the log of no redraw is empty, and that of one redraw is its frame |
| Windowing.FramesAppend | src/services/window_service.cpp:63-89 | the frames of two runs of redraws, one after the other, are the frames of the joined run |
| Windowing.FramesSent | src/services/window_service.cpp:63-89 | a log holding the frames of one run, extended by the frames of the next, holds the frames of both runs |
| Windowing.WindowService.constructor | src/services/window_service.cpp:6-11 | a zero-filled 256-byte buffer, an empty input, no widgets and no labels |
| Windowing.WindowService.AddWidget | src/services/window_service.cpp:162-164 | the widget is appended at the end of the paint order |
| Windowing.WindowService.SetInputLabel | src/services/window_service.cpp:175-178 | records the input label and registers it last |
| Windowing.WindowService.SetResultLabel | src/services/window_service.cpp:180-183 | records the result label and registers it last |
| Windowing.WindowService.Dispatch | src/services/window_service.cpp:69-71 | every widget is handed the event once, in registration order, and takes one gesture step |
| Windowing.WindowService.PaintWidgets | src/services/window_service.cpp:119-121 | sends exactly every widget's draw requests in registration order |
| Windowing.WindowService.PushLabelTexts | src/services/window_service.cpp:93-96 | the input label shows the input and the result label the output, each only if set; other widgets keep their text |
| Windowing.WindowService.ClearBack | src/services/window_service.cpp:106-107 | sends the white fill of the back buffer |
| Windowing.WindowService.PaintLayer | src/services/window_service.cpp:110-124 | an Xft draw on the back buffer is attempted; only when it succeeds are all widgets' requests sent inside it and the draw released |
| Windowing.WindowService.Present | src/services/window_service.cpp:127-129 | copies to the window, frees the back buffer and flushes |
| Windowing.WindowService.ComposeFrame | src/services/window_service.cpp:98-129 | sends exactly the frame for the pixmap it allocates and leaves the live resources as they were |
| Windowing.WindowService.Redraw | src/services/window_service.cpp:91-130 | the label texts are pushed before anything is painted, so the frame sent is computed from the new texts; no resource leaks |
| Windowing.WindowService.ReplaceAt | src/services/window_service.cpp:146 | the bytes overwrite the buffer from the given position on, and every other byte is kept |
| Windowing.WindowService.EditBuffer | src/services/window_service.cpp:139-148 | the buffer edit in place: the erased byte is zeroed, the appended bytes land after the input, and everything else in the 256-byte buffer is kept |
| Windowing.WindowService.HandleKeyPress | src/services/window_service.cpp:132-152 | quits exactly on `q` with a non-empty lookup; the input becomes `EditInput` of the old one; Return stores the script's answer; an empty lookup or quit changes nothing; every other key redraws exactly once, sending one full frame with the labels showing the new input and result; widgets other than the two labels keep their text; no resource leaks |
| Windowing.WindowService.React | src/services/window_service.cpp:73-87 | the session takes one `SessionStep`; on an Expose with count 0 or a non-quit key with a non-empty lookup exactly one frame is sent and the labels show the session; otherwise nothing is sent and no label changes; the frame sent, if any, is recorded as the one composition whose `Frames` the log gained, on a back buffer that is not live; no resource leaks |
| Windowing.WindowService.Step | src/services/window_service.cpp:66-88 | every widget takes one gesture step before the window reacts, so a redraw's frame paints the selections the event left; otherwise as `React`: one `SessionStep`, one frame exactly on a redrawing event and nothing sent on any other, labels kept in step with the session, the frame sent recorded as in `React`, no resource leaks |
| Windowing.WindowService.RunningAtStart | src/services/window_service.cpp:63-65 | before any event the loop's invariant `Running` holds for the state it starts from |
| Windowing.WindowService.Consume | src/services/window_service.cpp:65-88 | one turn of the loop (one `Step`) keeps `Running`: one more `SessionStep`, one more gesture step per widget, one more redraw and one more frame exactly on a redrawing event |
| Windowing.WindowService.MainLoop | src/services/window_service.cpp:63-89 | the loop leaves the session `SessionRun` gives for the events and stops right after the first quit key; each widget's selection is the gesture run over the events consumed; it redraws once per redrawing event consumed, sends nothing if there was none, and afterwards the labels show the final input and result; the log gains exactly the `Frames` of the compositions returned, one per redrawing event and in order, each on a back buffer that is `None` exactly when pixmaps cannot be created and otherwise not live; no resource leaks |
| Windowing.TypeChar | src/services/window_service.cpp:145-149 | a plain key with room appends its character |
| Windowing.SubmitScenario | src/services/window_service.cpp:132-152 | typing `1+1` and pressing Return shows the script's answer for `1+1` in the result label |

## Left out

- X11 and Xft themselves: pixel contents, fonts, colour maps, the GC, depth and visuals. Each call is a request appended to a log. A call's success is a constant of the `XServer` object.
- Opening the display (and its failure), `create_window`, `setup_gc` and `setup_xft`: these only set up X resources. The window service's own font, colour and on-window Xft draw are never used by `redraw`.
- `XNextEvent` blocks, so the loop takes a finite sequence of events instead. `XLookupString` is folded into the key-press event as its keysym and bytes.
- The `MappingNotify` keyboard refresh (`XRefreshKeyboardMapping`): the model handles the event and does nothing for it.
- `draw_at_pointer`: its body is commented out, so it does nothing.
- The mruby bridge (`ruby_service`) is not part of this model. `run` and its `load_file` of the start-up script are file I/O.
- Windowing.WindowService.MainLoop and Windowing.SessionStep: `execute` is the interpreter's answer for the submitted code taken alone, as a fixed function. The real `execute_code` runs every submission in one shared `mrb_state`, so definitions made by one submission change the answer to a later one. It also logs each call to stdout/stderr. Neither the interpreter state carried across calls nor that logging is modelled, so the equation with `SessionRun` holds only for a stateless interpreter.
- The service container, `app_module`, `main.cpp`, `x11_raii.hpp` and `combine.rb`: they are wiring, process start-up, RAII wrappers or a file-concatenation script.
- Widget kinds other than `Label`, and virtual dispatch: `Label` is the only concrete widget, so the window's widget list is a list of labels.
- Labels.Label.Dispose and Labels.NewLabel: the inherited destructors `~BufferedComponent` and `~VisibleComponent` are not modelled, neither after `Label::~Label` nor after the constructor throws. No inheritance is modelled, and as written the constructor never initialises the inherited `buffer_`, so which pixmap those destructors would free, if any, is indeterminate.
- Labels.Label.constructor: the constructor in `label.cpp` names a base-class constructor with an argument list that does not match the header. As written, it allocates no pixmap and assigns neither `needsRedraw_` nor the selection fields. Those fields start with arbitrary values, and the constructor's `width` and `height` are not kept.
- The `BufferedComponent` constructor passes no `x`/`y` to its base. So the model's `BufferedComponent` has no position and copies to `(0, 0)`, as its draw does.
- Windowing.WindowService.constructor: the header declares a second `selection_service` parameter that the body does not take. The model follows the body, so no selection tracker is injected into the window.
- The selection tracker is not wired to the labels: labels keep their own selection fields and never call it.
- Destruction of `WindowService`: it does not own its widgets, and its own X resources are not modelled.
- XProtocol.XServer.OpenFont and XProtocol.XServer.AllocColor: font and colour names are opaque strings. Which names are known is a constant set, with no pattern matching.

/**
 * The window service (services/window_service): the live input kept as a
 * fixed 256-byte buffer plus a length, the registered widgets in paint
 * order, the input and result labels, key handling, the per-event fan-out
 * to every widget, and the double-buffered redraw.
 *
 * The function `execute` given at construction stands for the script
 * engine's `execute_code`, taken as a stateless function; `XNextEvent` is replaced by a finite sequence of events.
 */
module Windowing {
  import opened XProtocol
  import opened Labels

  /** Size of `text_buffer`; an append must keep the length strictly below it. */
  const BufferSize: nat := 256
  /** The window size `redraw` composes at. */
  const WindowWidth: int := 350
  const WindowHeight: int := 250

  /** A key press that ends the loop: `q` with a non-empty lookup. */
  predicate IsQuit(ev: Event)
  {
    ev.KeyPress? && |ev.chars| > 0 && ev.keysym == XK_q
  }

  /** An event after which the loop redraws: a last Expose of its batch, or a non-quit key with a non-empty lookup. */
  predicate Redraws(ev: Event)
  {
    (ev.Expose? && ev.count == 0) || (ev.KeyPress? && |ev.chars| > 0 && !IsQuit(ev))
  }

  /** How many redraws the loop body performs over `events`. */
  function RedrawCount(events: seq<Event>): nat
    decreases |events|
  {
    if events == [] then 0
    else RedrawCount(events[..|events| - 1]) + (if Redraws(events[|events| - 1]) then 1 else 0)
  }

  /** One more event adds one more redraw exactly when it is a redrawing event. */
  lemma RedrawCountSnoc(events: seq<Event>, i: nat)
    requires i < |events|
    ensures RedrawCount(events[..i + 1]) == RedrawCount(events[..i]) + (if Redraws(events[i]) then 1 else 0)
  {
    assert events[..i + 1][..i] == events[..i];
  }

  /**
   * What a key press does to the live input text: drop the last byte on
   * backspace, append the looked-up bytes only while the result stays below
   * the buffer size, otherwise leave it. A backspace on an empty input is not
   * a backspace here: it reaches the append branch.
   */
  function EditInput(s: string, keysym: int, chars: seq<char>): (r: string)
    ensures |chars| == 0 || keysym == XK_q || keysym == XK_Return ==> r == s
    ensures r == s || (|s| > 0 && r == s[..|s| - 1]) || (r == s + chars && |r| < BufferSize)
    ensures |s| < BufferSize ==> |r| < BufferSize
  {
    if |chars| == 0 || keysym == XK_q then s
    else if keysym == XK_BackSpace && |s| > 0 then s[..|s| - 1]
    else if keysym == XK_Return then s
    else if |s| + |chars| < BufferSize then s + chars
    else s
  }

  /** Typing a plain character and then backspace restores the input. */
  lemma BackspaceUndoesAppend(s: string, keysym: int, c: char, erase: seq<char>)
    requires keysym != XK_q && keysym != XK_BackSpace && keysym != XK_Return
    requires |s| + 1 < BufferSize && |erase| > 0
    ensures EditInput(EditInput(s, keysym, [c]), XK_BackSpace, erase) == s
  {
    assert (s + [c])[..|s|] == s;
  }

  /**
   * Backspace on an empty input is caught by no branch but the append: the
   * looked-up bytes themselves become the input.
   */
  lemma BackspaceOnEmptyAppends(chars: seq<char>)
    requires 0 < |chars| < BufferSize
    ensures EditInput([], XK_BackSpace, chars) == chars
  {
    assert [] + chars == chars;
  }

  /** The state the event loop carries: live input, last script result, quit flag. */
  datatype Session = Session(input: string, output: string, done: bool)

  /** The effect of one event on the session, after the widgets have seen it. */
  function SessionStep(execute: string -> string, s: Session, ev: Event): (r: Session)
    ensures r.done <==> s.done || IsQuit(ev)
    ensures IsQuit(ev) ==> r.input == s.input && r.output == s.output
    ensures !ev.KeyPress? ==> r == s
    ensures ev.KeyPress? && |ev.chars| > 0 && ev.keysym == XK_Return ==> r == Session(s.input, execute(s.input), s.done)
  {
    if !ev.KeyPress? then s
    else if IsQuit(ev) then s.(done := true)
    else
      var output := if |ev.chars| > 0 && ev.keysym == XK_Return then execute(s.input) else s.output;
      Session(EditInput(s.input, ev.keysym, ev.chars), output, s.done)
  }

  /** The session after the loop has consumed `events`, stopping at the first quit. */
  function SessionRun(execute: string -> string, s: Session, events: seq<Event>): Session
    decreases |events|
  {
    if events == [] || s.done then s else SessionRun(execute, SessionStep(execute, s, events[0]), events[1..])
  }

  /** No sequence of events takes the live input to the buffer size or beyond. */
  lemma {:induction false} SessionRunKeepsBound(execute: string -> string, s: Session, events: seq<Event>)
    requires |s.input| < BufferSize
    ensures |SessionRun(execute, s, events).input| < BufferSize
    decreases |events|
  {
    if events != [] && !s.done {
      SessionRunKeepsBound(execute, SessionStep(execute, s, events[0]), events[1..]);
    }
  }

  /** A session still running takes one step per event. */
  lemma SessionRunStep(execute: string -> string, s: Session, events: seq<Event>, i: nat)
    requires i < |events| && !s.done
    ensures SessionRun(execute, s, events[i..]) == SessionRun(execute, SessionStep(execute, s, events[i]), events[i + 1..])
  {
    assert events[i..][1..] == events[i + 1..];
  }

  /** Once the loop has quit, later events change nothing. */
  lemma {:induction false} QuitIgnoresRest(execute: string -> string, s: Session, events: seq<Event>, rest: seq<Event>)
    requires SessionRun(execute, s, events).done
    ensures SessionRun(execute, s, events + rest) == SessionRun(execute, s, events)
    decreases |events|
  {
    if events == [] {
      assert events + rest == rest;
    } else if !s.done {
      assert (events + rest)[0] == events[0];
      assert (events + rest)[1..] == events[1..] + rest;
      QuitIgnoresRest(execute, SessionStep(execute, s, events[0]), events[1..], rest);
    }
  }

  /** What one redraw composed: its back buffer and the widgets' requests painted on it. */
  datatype Composition = Composition(back: ResourceId, painted: seq<Request>)

  /** The frames of successive redraws, sent one after another. */
  function Frames(cs: seq<Composition>, xftUsable: bool): seq<Request>
    decreases |cs|
  {
    if cs == [] then []
    else Frames(cs[..|cs| - 1], xftUsable) + Frame(cs[|cs| - 1].back, xftUsable, cs[|cs| - 1].painted)
  }

  /**
   * Every redraw composed on the back buffer an unavailable pixmap gives, or
   * on an id outside `live`.
   */
  predicate BacksOutside(cs: seq<Composition>, live: set<ResourceId>, pixmapsAvailable: bool)
  {
    forall c | c in cs :: c.back !in live && (c.back == None <==> !pixmapsAvailable)
  }

  lemma BacksOutsideAppend(cs: seq<Composition>, more: seq<Composition>, live: set<ResourceId>, pixmapsAvailable: bool)
    requires BacksOutside(cs, live, pixmapsAvailable) && BacksOutside(more, live, pixmapsAvailable)
    ensures BacksOutside(cs + more, live, pixmapsAvailable)
  {
  }

  /** The frames of no redraw are nothing, and those of one redraw its frame. */
  lemma FramesOfAtMostOne(cs: seq<Composition>, xftUsable: bool)
    requires |cs| <= 1
    ensures cs == [] ==> Frames(cs, xftUsable) == []
    ensures |cs| == 1 ==> Frames(cs, xftUsable) == Frame(cs[0].back, xftUsable, cs[0].painted)
  {
    if |cs| == 1 {
      assert cs[..0] == [];
    }
  }

  /** The frames of one run of redraws followed by another are the two runs' frames in order. */
  lemma {:induction false} FramesAppend(cs: seq<Composition>, more: seq<Composition>, xftUsable: bool)
    ensures Frames(cs + more, xftUsable) == Frames(cs, xftUsable) + Frames(more, xftUsable)
    decreases |more|
  {
    if more == [] {
      assert cs + more == cs;
    } else {
      var more', c := more[..|more| - 1], more[|more| - 1];
      var last := Frame(c.back, xftUsable, c.painted);
      assert (cs + more)[..|cs + more| - 1] == cs + more' && (cs + more)[|cs + more| - 1] == c;
      assert Frames(cs + more, xftUsable) == Frames(cs + more', xftUsable) + last;
      FramesAppend(cs, more', xftUsable);
      AppendAssoc(Frames(cs, xftUsable), Frames(more', xftUsable), last);
    }
  }

  /** A log holding the frames of `cs` after `log0` holds those of `cs + more` once the frames of `more` are sent. */
  lemma FramesSent(log0: seq<Request>, cs: seq<Composition>, more: seq<Composition>, xftUsable: bool)
    ensures log0 + Frames(cs, xftUsable) + Frames(more, xftUsable) == log0 + Frames(cs + more, xftUsable)
  {
    FramesAppend(cs, more, xftUsable);
    AppendAssoc(log0, Frames(cs, xftUsable), Frames(more, xftUsable));
  }

  lemma AppendAssoc<T>(a: seq<T>, b: seq<T>, c: seq<T>)
    ensures a + (b + c) == a + b + c
  {
  }

  /** What painting `ws` in order sends: each widget's draw after all earlier ones. */
  function PaintRequests(ws: seq<Label>, target: Drawable): seq<Request>
    reads ws
    decreases |ws|
  {
    if ws == [] then []
    else PaintRequests(ws[..|ws| - 1], target) + ws[|ws| - 1].DrawRequests(target)
  }

  lemma PaintRequestsSnoc(ws: seq<Label>, i: nat, target: Drawable)
    requires i < |ws|
    ensures PaintRequests(ws[..i + 1], target) == PaintRequests(ws[..i], target) + ws[i].DrawRequests(target)
  {
    assert ws[..i + 1][..i] == ws[..i];
  }

  lemma {:induction false} PaintRequestsAppend(a: seq<Label>, b: seq<Label>, target: Drawable)
    ensures PaintRequests(a + b, target) == PaintRequests(a, target) + PaintRequests(b, target)
    decreases |b|
  {
    if b == [] {
      assert a + b == a;
    } else {
      var b' := b[..|b| - 1];
      assert (a + b)[..|a + b| - 1] == a + b';
      PaintRequestsAppend(a, b', target);
    }
  }

  /**
   * Paint order: widget `i`'s requests come after those of every earlier
   * widget and before those of every later one, so the last registered widget
   * paints last.
   */
  lemma PaintOrder(ws: seq<Label>, i: nat, target: Drawable)
    requires i < |ws|
    ensures PaintRequests(ws, target) ==
      PaintRequests(ws[..i], target) + ws[i].DrawRequests(target) + PaintRequests(ws[i + 1..], target)
  {
    assert ws == ws[..i] + [ws[i]] + ws[i + 1..];
    PaintRequestsAppend(ws[..i] + [ws[i]], ws[i + 1..], target);
    PaintRequestsAppend(ws[..i], [ws[i]], target);
    assert [ws[i]][..0] == [];
  }

  /** Filling the back buffer white. */
  function ClearRequests(back: ResourceId): seq<Request>
  {
    [XSetForeground(WhitePixel), XFillRectangle(Pix(back), 0, 0, WindowWidth, WindowHeight)]
  }

  /**
   * The Xft layer: the attempt to create a draw on `target` and, when it
   * succeeds, the widgets' `painted` requests and the draw released.
   */
  function LayerRequests(target: Drawable, xftUsable: bool, painted: seq<Request>): seq<Request>
  {
    [XftDrawCreate(target)] + (if xftUsable then painted + [XftDrawDestroy(target)] else [])
  }

  /** Copying the back buffer to the window, freeing it, and flushing. */
  function PresentRequests(back: ResourceId): seq<Request>
  {
    [XCopyArea(Pix(back), Win, WindowWidth, WindowHeight, 0, 0), XFreePixmap(back), XFlush]
  }

  /**
   * One frame for back buffer `back`: created, cleared, the Xft layer, then
   * presented and freed.
   */
  function Frame(back: ResourceId, xftUsable: bool, painted: seq<Request>): seq<Request>
  {
    [XCreatePixmap(back, WindowWidth, WindowHeight)] + ClearRequests(back)
    + LayerRequests(Pix(back), xftUsable, painted)
    + PresentRequests(back)
  }

  /**
   * A frame creates the back buffer first and frees it just before the final
   * flush, with the back buffer cleared before anything is painted; with Xft
   * an Xft draw on the back buffer is attempted right after the clear; with
   * Xft the widgets' requests sit, unchanged and contiguous, inside that draw;
   * without it nothing is painted.
   */
  lemma FrameLayout(back: ResourceId, xftUsable: bool, painted: seq<Request>)
    ensures var f := Frame(back, xftUsable, painted);
      && |f| == 7 + (if xftUsable then |painted| + 1 else 0)
      && f[0] == XCreatePixmap(back, WindowWidth, WindowHeight)
      && f[1] == XSetForeground(WhitePixel)
      && f[2] == XFillRectangle(Pix(back), 0, 0, WindowWidth, WindowHeight)
      && f[3] == XftDrawCreate(Pix(back))
      && (xftUsable ==> f[4..4 + |painted|] == painted && f[4 + |painted|] == XftDrawDestroy(Pix(back)))
      && f[|f| - 3] == XCopyArea(Pix(back), Win, WindowWidth, WindowHeight, 0, 0)
      && f[|f| - 2] == XFreePixmap(back) && f[|f| - 1] == XFlush
  {
    var f := Frame(back, xftUsable, painted);
    if xftUsable {
      assert f == [XCreatePixmap(back, WindowWidth, WindowHeight)] + ClearRequests(back)
        + ([XftDrawCreate(Pix(back))] + painted + [XftDrawDestroy(Pix(back))]) + PresentRequests(back);
      assert f[4..4 + |painted|] == painted;
    }
  }

  class WindowService {
    const server: XServer
    /** Stands for the script engine's `execute_code`, taken as a stateless function. */
    const execute: string -> string
    /** The live input is the first `textLength` bytes. */
    const textBuffer: array<char>
    var textLength: nat
    /** Registered widgets; registration order is paint order. Not owned. */
    var widgets: seq<Label>
    var inputLabel: Label?
    var resultLabel: Label?
    /** Number of redraws so far. */
    ghost var redraws: nat
    /** Every widget an event was handed to, in delivery order. */
    ghost var deliveries: seq<Label>

    /** Everything but the label registration: the buffer bounds and one shared display. */
    ghost predicate WellFormed()
      reads this, server
    {
      && server.Valid()
      && textBuffer.Length == BufferSize && textLength < BufferSize
      && (forall w | w in widgets :: w.server == server)
    }

    /** The input and result labels, when set, are registered widgets. */
    ghost predicate Valid()
      reads this, server
    {
      && WellFormed()
      && (inputLabel != null ==> inputLabel in widgets)
      && (resultLabel != null ==> resultLabel in widgets)
    }

    function Input(): string
      reads this, textBuffer
      requires textLength <= textBuffer.Length
    {
      textBuffer[..textLength]
    }

    /** The input label shows the live input and the result label `output`, each when set. */
    ghost predicate LabelsShow(output: string)
      reads this, textBuffer, inputLabel, resultLabel
      requires textLength <= textBuffer.Length
    {
      && (resultLabel != null ==> resultLabel.text == output)
      && (inputLabel != null && inputLabel != resultLabel ==> inputLabel.text == Input())
    }

    /** The constructor: a zero-filled buffer, an empty input, no widgets, no labels. */
    constructor (server: XServer, execute: string -> string)
      requires server.Valid()
      ensures Valid() && fresh(textBuffer)
      ensures this.server == server && this.execute == execute
      ensures textBuffer[..] == seq(BufferSize, _ => '\0') && Input() == []
      ensures widgets == [] && inputLabel == null && resultLabel == null
      ensures redraws == 0 && deliveries == []
    {
      this.server := server;
      this.execute := execute;
      textBuffer := new char[BufferSize](_ => '\0');
      textLength := 0;
      widgets := [];
      inputLabel := null;
      resultLabel := null;
      redraws := 0;
      deliveries := [];
    }

    method AddWidget(widget: Label)
      requires WellFormed() && widget.server == server
      modifies this`widgets
      ensures WellFormed()
      ensures widgets == old(widgets) + [widget]
    {
      widgets := widgets + [widget];
    }

    /** Records the input label and registers it as the next widget. */
    method SetInputLabel(l: Label)
      requires Valid() && l.server == server
      modifies this`inputLabel, this`widgets
      ensures Valid()
      ensures inputLabel == l && widgets == old(widgets) + [l]
    {
      inputLabel := l;
      AddWidget(l);
    }

    /** Records the result label and registers it as the next widget. */
    method SetResultLabel(l: Label)
      requires Valid() && l.server == server
      modifies this`resultLabel, this`widgets
      ensures Valid()
      ensures resultLabel == l && widgets == old(widgets) + [l]
    {
      resultLabel := l;
      AddWidget(l);
    }

    /** Hands `ev` to every widget's `handleEvent`, in registration order. */
    method Dispatch(ev: Event)
      modifies widgets`selecting, widgets`selectionStart, widgets`selectionEnd, this`deliveries
      ensures deliveries == old(deliveries) + widgets
      ensures forall w | w in widgets :: w.Selection() == GestureStep(old(w.Selection()), ev)
    {
      var i := 0;
      while i < |widgets|
        invariant 0 <= i <= |widgets|
        invariant deliveries == old(deliveries) + widgets[..i]
        invariant forall w | w in widgets[..i] :: w.Selection() == GestureStep(old(w.Selection()), ev)
        invariant forall w | w in widgets[i..] && w !in widgets[..i] :: w.Selection() == old(w.Selection())
      {
        var w := widgets[i];
        GestureStepIdempotent(old(w.Selection()), ev);
        w.HandleEvent(ev);
        deliveries := deliveries + [w];
        assert widgets[..i + 1] == widgets[..i] + [w];
        i := i + 1;
      }
      assert widgets[..i] == widgets;
    }

    /** Everything one redraw sends, for back buffer `back` and the widgets' current state. */
    function FrameRequests(back: ResourceId): seq<Request>
      reads this, widgets
    {
      Frame(back, server.xftUsable, PaintRequests(widgets, Pix(back)))
    }

    /** Draws every widget onto `target`, in registration order. */
    method PaintWidgets(target: Drawable)
      requires forall w | w in widgets :: w.server == server
      modifies server`log
      ensures server.log == old(server.log) + PaintRequests(widgets, target)
    {
      var i := 0;
      while i < |widgets|
        invariant 0 <= i <= |widgets|
        invariant server.log == old(server.log) + PaintRequests(widgets[..i], target)
      {
        ghost var painted := PaintRequests(widgets[..i], target);
        widgets[i].Draw(target);
        PaintRequestsSnoc(widgets, i, target);
        AppendAssoc(old(server.log), painted, widgets[i].DrawRequests(target));
        i := i + 1;
      }
      assert widgets[..i] == widgets;
    }

    /**
     * Pushes the live input into the input label and `output` into the result
     * label, each only if set, the result last.
     */
    method PushLabelTexts(output: string)
      requires Valid()
      modifies widgets`text, widgets`needsRedraw, widgets`invalidations
      ensures resultLabel != null ==> resultLabel.text == output
      ensures inputLabel != null && inputLabel != resultLabel ==> inputLabel.text == Input()
      ensures forall w | w in widgets && w != inputLabel && w != resultLabel ::
        w.text == old(w.text) && w.needsRedraw == old(w.needsRedraw)
    {
      if inputLabel != null {
        inputLabel.SetText(textBuffer[..textLength]);
      }
      if resultLabel != null {
        resultLabel.SetText(output);
      }
    }

    /**
     * Composes one frame: a white back buffer, the Xft layer with every widget
     * in registration order (painted only when Xft drawing works), the copy to the window, the back
     * buffer freed, and a flush.
     */
    method ComposeFrame()
      requires WellFormed()
      modifies server
      ensures server.Valid()
      ensures server.log == old(server.log) + FrameRequests(old(server.NextPixmap()))
      ensures server.live == old(server.live)
    {
      ghost var log0 := server.log;
      var back := server.CreatePixmap(WindowWidth, WindowHeight);
      ghost var sent := [XCreatePixmap(back, WindowWidth, WindowHeight)];
      ClearBack(back);
      AppendAssoc(log0, sent, ClearRequests(back));
      sent := sent + ClearRequests(back);
      PaintLayer(Pix(back));
      ghost var layer := LayerRequests(Pix(back), server.xftUsable, PaintRequests(widgets, Pix(back)));
      AppendAssoc(log0, sent, layer);
      sent := sent + layer;
      Present(back);
      AppendAssoc(log0, sent, PresentRequests(back));
    }

    method ClearBack(back: ResourceId)
      modifies server`log
      ensures server.log == old(server.log) + ClearRequests(back)
    {
      server.Send(XSetForeground(WhitePixel));
      server.Send(XFillRectangle(Pix(back), 0, 0, WindowWidth, WindowHeight));
    }

    method Present(back: ResourceId)
      modifies server`log, server`live
      ensures server.log == old(server.log) + PresentRequests(back)
      ensures server.live == old(server.live) - {back}
    {
      server.Send(XCopyArea(Pix(back), Win, WindowWidth, WindowHeight, 0, 0));
      server.FreePixmap(back);
      server.Send(XFlush);
    }

    /**
     * The Xft layer of a frame: an Xft draw on `target` is attempted; when it
     * succeeds every widget is painted onto it and the draw is released.
     */
    method PaintLayer(target: Drawable)
      requires forall w | w in widgets :: w.server == server
      modifies server`log
      ensures server.log == old(server.log) + LayerRequests(target, server.xftUsable, PaintRequests(widgets, target))
    {
      server.Send(XftDrawCreate(target));
      if server.xftUsable {
        PaintWidgets(target);
        AppendAssoc(old(server.log), [XftDrawCreate(target)], PaintRequests(widgets, target));
        server.Send(XftDrawDestroy(target));
        AppendAssoc(old(server.log), [XftDrawCreate(target)] + PaintRequests(widgets, target), [XftDrawDestroy(target)]);
        AppendAssoc([XftDrawCreate(target)], PaintRequests(widgets, target), [XftDrawDestroy(target)]);
      }
    }

    /** Pushes the label texts, then composes a frame from the widgets' new state. */
    method Redraw(output: string)
      requires Valid()
      modifies server, widgets`text, widgets`needsRedraw, widgets`invalidations, this`redraws
      ensures Valid()
      ensures redraws == old(redraws) + 1
      ensures resultLabel != null ==> resultLabel.text == output
      ensures inputLabel != null && inputLabel != resultLabel ==> inputLabel.text == old(Input())
      ensures forall w | w in widgets && w != inputLabel && w != resultLabel ::
        w.text == old(w.text) && w.needsRedraw == old(w.needsRedraw)
      ensures server.log == old(server.log) + FrameRequests(old(server.NextPixmap()))
      ensures server.live == old(server.live)
    {
      PushLabelTexts(output);
      ComposeFrame();
      redraws := redraws + 1;
    }

    /**
     * A key press whose lookup gave `keysym` and the bytes `chars`: quit on
     * `q`; otherwise edit the buffer or run the script on Return, then redraw.
     * An empty lookup does nothing.
     */
    method HandleKeyPress(keysym: int, chars: seq<char>, output: string) returns (quit: bool, newOutput: string)
      requires Valid()
      modifies this`textLength, textBuffer, this`redraws, server
      modifies widgets`text, widgets`needsRedraw, widgets`invalidations
      ensures Valid()
      ensures quit <==> |chars| > 0 && keysym == XK_q
      ensures Input() == EditInput(old(Input()), keysym, chars)
      ensures newOutput == if |chars| > 0 && keysym == XK_Return then execute(old(Input())) else output
      ensures redraws == old(redraws) + (if |chars| > 0 && !quit then 1 else 0)
      ensures |chars| == 0 || quit ==>
        textBuffer[..] == old(textBuffer[..]) && unchanged(server) && unchanged(widgets)
      ensures |chars| > 0 && keysym == XK_BackSpace && old(textLength) > 0 ==>
        textBuffer[..] == old(textBuffer[..])[old(textLength) - 1 := '\0']
      ensures (&& |chars| > 0 && keysym != XK_q && keysym != XK_Return
               && !(keysym == XK_BackSpace && old(textLength) > 0)
               && old(textLength) + |chars| < BufferSize) ==>
        textBuffer[..] == old(textBuffer[..])[..old(textLength)] + chars + old(textBuffer[..])[old(textLength) + |chars|..]
      ensures |chars| > 0 && !quit ==>
        server.log == old(server.log) + FrameRequests(old(server.NextPixmap())) && LabelsShow(newOutput)
      ensures server.live == old(server.live)
      ensures forall w | w in widgets && w != inputLabel && w != resultLabel ::
        w.text == old(w.text) && w.needsRedraw == old(w.needsRedraw)
    {
      quit, newOutput := false, output;
      if |chars| > 0 {
        if keysym == XK_q {
          return true, output;
        }
        if keysym == XK_Return {
          newOutput := execute(textBuffer[..textLength]);
        }
        EditBuffer(keysym, chars);
        Redraw(newOutput);
      }
    }

    /**
     * The buffer half of a non-quit key press with a non-empty lookup: erase
     * the last byte, or append `chars` when the result stays below the buffer
     * size; Return and an overlong append leave the buffer alone.
     */
    method EditBuffer(keysym: int, chars: seq<char>)
      requires Valid() && |chars| > 0 && keysym != XK_q
      modifies this`textLength, textBuffer
      ensures Valid()
      ensures Input() == EditInput(old(Input()), keysym, chars)
      ensures keysym == XK_BackSpace && old(textLength) > 0 ==>
        textBuffer[..] == old(textBuffer[..])[old(textLength) - 1 := '\0']
      ensures (&& keysym != XK_Return && !(keysym == XK_BackSpace && old(textLength) > 0)
               && old(textLength) + |chars| < BufferSize) ==>
        textBuffer[..] == old(textBuffer[..])[..old(textLength)] + chars + old(textBuffer[..])[old(textLength) + |chars|..]
      ensures (|| keysym == XK_Return
               || (!(keysym == XK_BackSpace && old(textLength) > 0) && old(textLength) + |chars| >= BufferSize)) ==>
        textBuffer[..] == old(textBuffer[..]) && textLength == old(textLength)
    {
      if keysym == XK_BackSpace && textLength > 0 {
        textLength := textLength - 1;
        textBuffer[textLength] := '\0';
      } else if keysym == XK_Return {
      } else if textLength + |chars| < textBuffer.Length {
        ReplaceAt(textLength, chars);
        textLength := textLength + |chars|;
      }
    }

    /** The buffer's `replace`: `bytes` overwrite the bytes from `at` on, and every other byte is kept. */
    method ReplaceAt(at: nat, bytes: seq<char>)
      requires at + |bytes| <= textBuffer.Length
      modifies textBuffer
      ensures textBuffer[..] == old(textBuffer[..])[..at] + bytes + old(textBuffer[..])[at + |bytes|..]
    {
      forall k | 0 <= k < |bytes| {
        textBuffer[at + k] := bytes[k];
      }
    }

    /**
     * The window's own reaction to an event, after the widgets have seen it:
     * an Expose redraws only when it is the last of its batch, a key press is
     * handled, and pointer events and keyboard-mapping changes need nothing
     * more here. `redrawn` holds what the frame sent, if any, was composed
     * from.
     */
    method React(ev: Event, output: string) returns (done: bool, newOutput: string, ghost redrawn: seq<Composition>)
      requires Valid()
      modifies this`textLength, textBuffer, this`redraws, server
      modifies widgets`text, widgets`needsRedraw, widgets`invalidations
      ensures Valid()
      ensures Session(Input(), newOutput, done) == SessionStep(execute, Session(old(Input()), output, false), ev)
      ensures redraws == old(redraws) + (if Redraws(ev) then 1 else 0)
      ensures Redraws(ev) ==>
        server.log == old(server.log) + FrameRequests(old(server.NextPixmap())) && LabelsShow(newOutput)
      ensures !Redraws(ev) ==>
        && server.log == old(server.log)
        && forall w | w in widgets :: w.text == old(w.text) && w.needsRedraw == old(w.needsRedraw)
      ensures forall w | w in widgets && w != inputLabel && w != resultLabel ::
        w.text == old(w.text) && w.needsRedraw == old(w.needsRedraw)
      ensures !Redraws(ev) && old(LabelsShow(output)) ==> LabelsShow(newOutput)
      ensures server.live == old(server.live)
      ensures |redrawn| == (if Redraws(ev) then 1 else 0)
      ensures server.log == old(server.log) + Frames(redrawn, server.xftUsable)
      ensures BacksOutside(redrawn, server.live, server.pixmapsAvailable)
    {
      ghost var back := server.NextPixmap();
      done, newOutput := false, output;
      match ev {
        case Expose(count) =>
          if count == 0 {
            Redraw(output);
          }
        case KeyPress(keysym, chars) =>
          done, newOutput := HandleKeyPress(keysym, chars, output);
        case _ =>
      }
      redrawn := if Redraws(ev) then [Composition(back, PaintRequests(widgets, Pix(back)))] else [];
      FramesOfAtMostOne(redrawn, server.xftUsable);
    }

    /**
     * One iteration of the loop body: every widget sees the event before the
     * window reacts to it, so a redraw paints the selections the event left.
     * `redrawn` holds what the frame sent, if any, was composed from.
     */
    method Step(ev: Event, output: string) returns (done: bool, newOutput: string, ghost redrawn: seq<Composition>)
      requires Valid()
      modifies this`textLength, textBuffer, this`redraws, this`deliveries, server
      modifies widgets`text, widgets`needsRedraw, widgets`invalidations
      modifies widgets`selecting, widgets`selectionStart, widgets`selectionEnd
      ensures Valid()
      ensures Session(Input(), newOutput, done) == SessionStep(execute, Session(old(Input()), output, false), ev)
      ensures deliveries == old(deliveries) + widgets
      ensures forall w | w in widgets :: w.Selection() == GestureStep(old(w.Selection()), ev)
      ensures redraws == old(redraws) + (if Redraws(ev) then 1 else 0)
      ensures Redraws(ev) ==>
        server.log == old(server.log) + FrameRequests(old(server.NextPixmap())) && LabelsShow(newOutput)
      ensures !Redraws(ev) ==>
        && server.log == old(server.log)
        && forall w | w in widgets :: w.text == old(w.text) && w.needsRedraw == old(w.needsRedraw)
      ensures forall w | w in widgets && w != inputLabel && w != resultLabel ::
        w.text == old(w.text) && w.needsRedraw == old(w.needsRedraw)
      ensures !Redraws(ev) && old(LabelsShow(output)) ==> LabelsShow(newOutput)
      ensures server.live == old(server.live)
      ensures |redrawn| == (if Redraws(ev) then 1 else 0)
      ensures server.log == old(server.log) + Frames(redrawn, server.xftUsable)
      ensures BacksOutside(redrawn, server.live, server.pixmapsAvailable)
    {
      Dispatch(ev);
      assert server.log == old(server.log) && server.live == old(server.live) && Input() == old(Input());
      assert LabelsShow(output) == old(LabelsShow(output));
      done, newOutput, redrawn := React(ev, output);
    }

    /**
     * What the event loop keeps after consuming `events[..consumed]`, having
     * started from session `start`, selections `sel0`, redraw count
     * `redraws0`, request log `log0` and live resources `live0`: the session
     * still to come is the rest of the pure run, no quit key came before the
     * last event consumed, each selection is its gesture run, one redraw and
     * one whole frame per redrawing event, the labels show the session after
     * a redraw, and no resource leaks.
     */
    ghost predicate Running(events: seq<Event>, consumed: nat, quit: bool, output: string, composed: seq<Composition>,
                            start: Session, sel0: map<Label, Gesture>, redraws0: nat, log0: seq<Request>, live0: set<ResourceId>)
      reads this, server, textBuffer, widgets, inputLabel, resultLabel
    {
      && Valid()
      && consumed <= |events|
      && SessionRun(execute, start, events) == SessionRun(execute, Session(Input(), output, quit), events[consumed..])
      && (quit ==> 0 < consumed && IsQuit(events[consumed - 1]))
      && (forall k | 0 <= k < consumed - 1 :: !IsQuit(events[k]))
      && (!quit ==> forall k | 0 <= k < consumed :: !IsQuit(events[k]))
      && (forall w | w in widgets :: w in sel0 && w.Selection() == GestureRun(sel0[w], events[..consumed]))
      && redraws == redraws0 + RedrawCount(events[..consumed])
      && (RedrawCount(events[..consumed]) == 0 ==> server.log == log0)
      && (RedrawCount(events[..consumed]) > 0 ==> LabelsShow(output))
      && server.live == live0
      && |composed| == RedrawCount(events[..consumed])
      && server.log == log0 + Frames(composed, server.xftUsable)
      && BacksOutside(composed, live0, server.pixmapsAvailable)
    }

    /** Before any event, the loop holds `Running` for the state it starts from. */
    lemma RunningAtStart(events: seq<Event>, output: string, sel0: map<Label, Gesture>)
      requires Valid()
      requires forall w | w in widgets :: w in sel0 && sel0[w] == w.Selection()
      ensures Running(events, 0, false, output, [], Session(Input(), output, false), sel0, redraws, server.log, server.live)
    {
      assert events[..0] == [] && events[0..] == events;
    }

    /** One turn of the event loop: `Step` on the next event keeps `Running`. */
    method Consume(events: seq<Event>, consumed: nat, output: string, ghost composed: seq<Composition>,
                   ghost start: Session, ghost sel0: map<Label, Gesture>, ghost redraws0: nat,
                   ghost log0: seq<Request>, ghost live0: set<ResourceId>)
      returns (quit: bool, newOutput: string, ghost composed': seq<Composition>)
      requires consumed < |events|
      requires Running(events, consumed, false, output, composed, start, sel0, redraws0, log0, live0)
      modifies this`textLength, textBuffer, this`redraws, this`deliveries, server
      modifies widgets`text, widgets`needsRedraw, widgets`invalidations
      modifies widgets`selecting, widgets`selectionStart, widgets`selectionEnd
      ensures Running(events, consumed + 1, quit, newOutput, composed', start, sel0, redraws0, log0, live0)
    {
      RedrawCountSnoc(events, consumed);
      SessionRunStep(execute, Session(Input(), output, false), events, consumed);
      forall w | w in widgets
        ensures GestureRun(sel0[w], events[..consumed + 1]) == GestureStep(GestureRun(sel0[w], events[..consumed]), events[consumed])
      {
        assert events[..consumed + 1] == events[..consumed] + [events[consumed]];
        GestureRunSnoc(sel0[w], events[..consumed], events[consumed]);
      }
      ghost var redrawn;
      quit, newOutput, redrawn := Step(events[consumed], output);
      FramesSent(log0, composed, redrawn, server.xftUsable);
      BacksOutsideAppend(composed, redrawn, live0, server.pixmapsAvailable);
      composed' := composed + redrawn;
    }

    /**
     * The event loop over the events delivered so far: runs `Step` until a
     * quit key or the end of `events`. The session it leaves is the pure
     * `SessionRun` of the events, and each widget's selection is its gesture
     * run over the events consumed. What it sends is one whole frame per
     * redrawing event, in order, the frame of redraw `k` composed as
     * `composed[k]` says.
     */
    method MainLoop(events: seq<Event>, output: string)
      returns (quit: bool, consumed: nat, finalOutput: string, ghost composed: seq<Composition>)
      requires Valid()
      modifies this`textLength, textBuffer, this`redraws, this`deliveries, server
      modifies widgets`text, widgets`needsRedraw, widgets`invalidations
      modifies widgets`selecting, widgets`selectionStart, widgets`selectionEnd
      ensures Valid()
      ensures consumed <= |events|
      ensures Session(Input(), finalOutput, quit) == SessionRun(execute, Session(old(Input()), output, false), events)
      ensures quit ==> 0 < consumed && IsQuit(events[consumed - 1])
      ensures !quit ==> consumed == |events|
      ensures forall k | 0 <= k < consumed - 1 :: !IsQuit(events[k])
      ensures forall w | w in widgets :: w.Selection() == GestureRun(old(w.Selection()), events[..consumed])
      ensures redraws == old(redraws) + RedrawCount(events[..consumed])
      ensures RedrawCount(events[..consumed]) == 0 ==> server.log == old(server.log)
      ensures RedrawCount(events[..consumed]) > 0 ==> LabelsShow(finalOutput)
      ensures server.live == old(server.live)
      ensures |composed| == RedrawCount(events[..consumed])
      ensures server.log == old(server.log) + Frames(composed, server.xftUsable)
      ensures BacksOutside(composed, server.live, server.pixmapsAvailable)
    {
      ghost var start := Session(Input(), output, false);
      ghost var sel0 := map w | w in widgets :: w.Selection();
      quit, consumed, finalOutput := false, 0, output;
      composed := [];
      RunningAtStart(events, output, sel0);
      while !quit && consumed < |events|
        invariant Running(events, consumed, quit, finalOutput, composed, start, sel0, old(redraws), old(server.log), old(server.live))
      {
        quit, finalOutput, composed := Consume(events, consumed, finalOutput, composed, start, sel0, old(redraws), old(server.log), old(server.live));
        consumed := consumed + 1;
      }
      if !quit {
        assert events[consumed..] == [];
      }
    }
  }

  /** A plain character typed into a window whose input has room for it. */
  method TypeChar(window: WindowService, keysym: int, c: char)
    requires window.Valid()
    requires keysym != XK_q && keysym != XK_BackSpace && keysym != XK_Return
    requires |window.Input()| + 1 < BufferSize
    modifies window`textLength, window.textBuffer, window`redraws, window.server
    modifies window.widgets`text, window.widgets`needsRedraw, window.widgets`invalidations
    ensures window.Valid()
    ensures window.Input() == old(window.Input()) + [c]
  {
    var quit, output := window.HandleKeyPress(keysym, [c], "");
  }

  /**
   * The submit path end to end: typing "1+1" and pressing Return makes the
   * result label show what the script engine returned for "1+1".
   */
  method SubmitScenario(execute: string -> string) returns (shown: string)
    ensures shown == execute("1+1")
  {
    var server := new XServer(true, {"monospace-10"}, {"#004400"}, true);
    var window := new WindowService(server, execute);
    var built := NewLabel(server, 10, 60, "Result", "monospace-10", "#004400");
    var result := built.obj;
    window.SetResultLabel(result);
    TypeChar(window, 0x31, '1');
    TypeChar(window, 0x2b, '+');
    TypeChar(window, 0x31, '1');
    assert window.Input() == "1+1";
    var quit, output := window.HandleKeyPress(XK_Return, ['\r'], "");
    shown := result.text;
  }
}

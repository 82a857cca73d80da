/**
 * The text label widget (gui/label.hpp, gui/label.cpp): its text with
 * invalidate-on-change, the press/motion/release selection gesture over
 * three fields, its draw with a highlight rule of its own, and the
 * constructor and destructor that acquire and release a font and a colour.
 */
module Labels {
  import opened XProtocol
  import opened Components
  import W = Wrappers

  /** The three selection fields a label updates per event. */
  datatype Gesture = Gesture(selecting: bool, start: int, end: int)

  function IsPrimaryPress(ev: Event): bool
  {
    ev.ButtonPress? && ev.button == Button1
  }

  /** What `handleEvent` does to the selection fields for one event. */
  function GestureStep(g: Gesture, ev: Event): (r: Gesture)
    ensures IsPrimaryPress(ev) ==> r == Gesture(true, ev.x, ev.x)
    ensures !IsPrimaryPress(ev) ==> r.start == g.start
    ensures !IsPrimaryPress(ev) && !g.selecting ==> r == g
    ensures r.selecting ==> g.selecting || IsPrimaryPress(ev)
    ensures r.end != g.end ==> IsPrimaryPress(ev) || (ev.MotionNotify? && r.end == ev.x)
    ensures ev.ButtonRelease? && g.selecting ==> r == g.(selecting := false)
    ensures ev.MotionNotify? && g.selecting ==> r == g.(end := ev.x)
    ensures ev.ButtonPress? && ev.button != Button1 ==> r == g
  {
    if IsPrimaryPress(ev) then Gesture(true, ev.x, ev.x)
    else if ev.MotionNotify? && g.selecting then g.(end := ev.x)
    else if ev.ButtonRelease? && g.selecting then g.(selecting := false)
    else g
  }

  /** The selection fields after a label has seen `events`, oldest first. */
  function GestureRun(g: Gesture, events: seq<Event>): Gesture
    decreases |events|
  {
    if events == [] then g else GestureRun(GestureStep(g, events[0]), events[1..])
  }

  /** Delivering the same event twice has the effect of delivering it once. */
  lemma GestureStepIdempotent(g: Gesture, ev: Event)
    ensures GestureStep(GestureStep(g, ev), ev) == GestureStep(g, ev)
  {
  }

  lemma {:induction false} GestureRunAppend(g: Gesture, a: seq<Event>, b: seq<Event>)
    ensures GestureRun(g, a + b) == GestureRun(GestureRun(g, a), b)
    decreases |a|
  {
    if a == [] {
      assert a + b == b;
    } else {
      assert (a + b)[0] == a[0];
      assert (a + b)[1..] == a[1..] + b;
      GestureRunAppend(GestureStep(g, a[0]), a[1..], b);
    }
  }

  /** Feeding one more event is one more step. */
  lemma GestureRunSnoc(g: Gesture, a: seq<Event>, ev: Event)
    ensures GestureRun(g, a + [ev]) == GestureStep(GestureRun(g, a), ev)
  {
    GestureRunAppend(g, a, [ev]);
    assert [ev][1..] == [];
  }

  ghost predicate AllMotions(events: seq<Event>)
  {
    forall i | 0 <= i < |events| :: events[i].MotionNotify?
  }

  /** While selecting, motions move only the end, to the last motion's x. */
  lemma {:induction false} MotionsMoveEnd(g: Gesture, moves: seq<Event>)
    requires g.selecting && AllMotions(moves)
    ensures GestureRun(g, moves) == if moves == [] then g else g.(end := moves[|moves| - 1].x)
    decreases |moves|
  {
    if moves != [] {
      var g' := GestureStep(g, moves[0]);
      assert AllMotions(moves[1..]);
      MotionsMoveEnd(g', moves[1..]);
      if moves[1..] != [] {
        assert moves[1..][|moves[1..]| - 1] == moves[|moves| - 1];
      }
    }
  }

  /** A highlight rectangle in window coordinates. */
  datatype Rect = Rect(x: int, y: int, width: int, height: int)

  /**
   * The highlight `draw` fills for a label with baseline `baseline`: only for a
   * non-negative start strictly left of the end; a right-to-left range shows
   * nothing.
   */
  function Highlight(start: int, end: int, baseline: int): (r: W.Option<Rect>)
    ensures r.Some? <==> 0 <= start < end
    ensures r.Some? ==> r.value.x == start && r.value.x + r.value.width == end && r.value.width > 0
    ensures r.Some? ==> r.value.y == baseline - 12 && r.value.height == 15
  {
    if start >= 0 && end > start then W.Some(Rect(start, baseline - 12, end - start, 15)) else W.None
  }

  /**
   * A completed drag — a Button1 press, motions, a release of any button —
   * leaves the label idle with the range from the press to the last motion
   * retained, and that range is highlighted exactly when it runs left to
   * right from a non-negative x.
   */
  lemma {:induction false} DragKeepsRange(g: Gesture, press: Event, moves: seq<Event>, release: Event, baseline: int)
    requires IsPrimaryPress(press) && AllMotions(moves) && release.ButtonRelease?
    ensures var last := if moves == [] then press.x else moves[|moves| - 1].x;
      && GestureRun(g, [press] + moves + [release]) == Gesture(false, press.x, last)
      && (Highlight(press.x, last, baseline).Some? <==> 0 <= press.x < last)
  {
    var pressed := GestureStep(g, press);
    assert GestureRun(g, [press]) == pressed by {
      assert [press][1..] == [];
    }
    GestureRunAppend(g, [press], moves);
    MotionsMoveEnd(pressed, moves);
    GestureRunSnoc(g, [press] + moves, release);
  }

  /** The label's part of a frame: what `draw` sends for a given selection and text. */
  function LabelRequests(xftUsable: bool, target: Drawable, x: int, y: int, text: string, start: int, end: int): seq<Request>
  {
    if !xftUsable then [XftDrawCreate(target)]
    else
      var fill := match Highlight(start, end, y)
        case None => []
        case Some(rect) => [XSetForeground(SelectionGray), XFillRectangle(Win, rect.x, rect.y, rect.width, rect.height)];
      [XftDrawCreate(target), XftDrawStringUtf8(target, x, y, text)] + fill + [XftDrawDestroy(target)]
  }

  /**
   * What a label's draw sends: always the attempt to create an Xft draw on
   * the target, and nothing more when that fails; otherwise the text next, on
   * the target, and the Xft draw released last.
   * A rectangle is filled exactly when Xft drawing works and the range runs
   * left to right from a non-negative x, and every fill goes to the window,
   * never to the target, with a positive width.
   */
  lemma LabelRequestsShape(xftUsable: bool, target: Drawable, x: int, y: int, text: string, start: int, end: int)
    ensures var r := LabelRequests(xftUsable, target, x, y, text, start, end);
      && |r| >= 1 && r[0] == XftDrawCreate(target)
      && (!xftUsable ==> r == [XftDrawCreate(target)])
      && (xftUsable ==>
          && |r| >= 3
          && r[1] == XftDrawStringUtf8(target, x, y, text) && r[|r| - 1] == XftDrawDestroy(target))
      && (forall i | 0 <= i < |r| && r[i].XFillRectangle? :: r[i].dst == Win && 0 <= r[i].x && r[i].width > 0)
      && ((exists i | 0 <= i < |r| :: r[i].XFillRectangle?) <==> xftUsable && 0 <= start < end)
  {
    var r := LabelRequests(xftUsable, target, x, y, text, start, end);
    if xftUsable && 0 <= start < end {
      assert r[3].XFillRectangle?;
    }
  }

  class Label {
    const server: XServer
    /** The baseline position the text is drawn at. */
    const x: int
    const y: int
    var text: string
    const font: ResourceId
    const color: ResourceId
    /** The needs-redraw flag a label inherits as a buffered component. */
    var needsRedraw: bool
    /** Number of invalidations so far. */
    ghost var invalidations: nat
    var selecting: bool
    var selectionStart: int
    var selectionEnd: int

    /**
     * The part of the constructor after both resources were acquired. The
     * constructor names `VisibleComponent`'s constructor, so it allocates no
     * pixmap and assigns neither `needsRedraw_` nor the selection fields:
     * those start with arbitrary values here.
     */
    constructor (server: XServer, x: int, y: int, text: string, font: ResourceId, color: ResourceId)
      ensures this.server == server && this.x == x && this.y == y && this.text == text
      ensures this.font == font && this.color == color && invalidations == 0
    {
      this.server := server;
      this.x, this.y := x, y;
      this.text := text;
      this.font, this.color := font, color;
      invalidations := 0;
    }

    function Selection(): Gesture
      reads this
    {
      Gesture(selecting, selectionStart, selectionEnd)
    }

    /** Replaces the text; only an actual change invalidates the buffer. */
    method SetText(t: string)
      modifies this`text, this`needsRedraw, this`invalidations
      ensures text == t
      ensures old(text) == t ==> needsRedraw == old(needsRedraw) && invalidations == old(invalidations)
      ensures old(text) != t ==> needsRedraw && invalidations == old(invalidations) + 1
    {
      if text != t {
        text := t;
        // mark the buffer stale
        needsRedraw := true;
        invalidations := invalidations + 1;
      }
    }

    /** The selection gesture: one transition of the three selection fields. */
    method HandleEvent(ev: Event)
      modifies this`selecting, this`selectionStart, this`selectionEnd
      ensures Selection() == GestureStep(old(Selection()), ev)
    {
      if ev.ButtonPress? && ev.button == Button1 {
        selecting := true;
        selectionStart := ev.x;
        selectionEnd := selectionStart;
      } else if ev.MotionNotify? && selecting {
        selectionEnd := ev.x;
      } else if ev.ButtonRelease? && selecting {
        selecting := false;
      }
    }

    /** What `Draw` sends for the label's current state. */
    function DrawRequests(target: Drawable): seq<Request>
      reads this
    {
      LabelRequests(server.xftUsable, target, x, y, text, selectionStart, selectionEnd)
    }

    /**
     * Draws the text at (x, y) on `target` and then, when the highlight rule
     * allows, fills the highlight on the window; nothing after the attempt
     * when no Xft draw can be created for `target`. The needs-redraw flag
     * plays no part.
     */
    method Draw(target: Drawable)
      modifies server`log
      ensures server.log == old(server.log) + DrawRequests(target)
    {
      server.Send(XftDrawCreate(target));
      if !server.xftUsable {
        return;
      }
      server.Send(XftDrawStringUtf8(target, x, y, text));
      if selectionStart >= 0 && selectionEnd > selectionStart {
        server.Send(XSetForeground(SelectionGray));
        server.Send(XFillRectangle(Win, selectionStart, y - 12, selectionEnd - selectionStart, 15));
      }
      server.Send(XftDrawDestroy(target));
    }

    /** The destructor: frees the colour, then closes the font if there is one. */
    method Dispose()
      modifies server`live, server`log
      ensures font != None ==> server.live == old(server.live) - {color, font}
      ensures font != None ==> server.log == old(server.log) + [XftColorFree(color), XftFontClose(font)]
      ensures font == None ==> server.live == old(server.live) - {color}
      ensures font == None ==> server.log == old(server.log) + [XftColorFree(color)]
    {
      server.FreeColor(color);
      if font != None {
        server.CloseFont(font);
      }
    }
  }

  /**
   * The `Label` constructor: opens the font (throws when it cannot), then
   * allocates the colour; when that fails it closes the font it opened before
   * throwing, so a failed construction leaves no resource behind.
   */
  method NewLabel(server: XServer, x: int, y: int, text: string, fontName: string, colorName: string)
    returns (r: Built<Label>)
    requires server.Valid()
    modifies server
    ensures server.Valid()
    ensures fontName !in server.fonts ==> r == Failed(FontNotLoaded(fontName))
    ensures fontName in server.fonts && colorName !in server.colors ==> r == Failed(ColorNotAllocated(colorName))
    ensures r.Failed? <==> fontName !in server.fonts || colorName !in server.colors
    ensures r.Failed? ==> server.live == old(server.live)
    ensures r == Failed(ColorNotAllocated(colorName)) ==>
      server.log == old(server.log) + [XftFontOpenName(fontName, old(server.nextId)),
        XftColorAllocName(colorName, None), XftFontClose(old(server.nextId))]
    ensures r.Created? ==> fresh(r.obj) && r.obj.server == server
    ensures r.Created? ==> r.obj.x == x && r.obj.y == y && r.obj.text == text
    ensures r.Created? ==> r.obj.font != None && r.obj.color != None && r.obj.font != r.obj.color
    ensures r.Created? ==> r.obj.font !in old(server.live) && r.obj.color !in old(server.live)
    ensures r.Created? ==> server.live == old(server.live) + {r.obj.font, r.obj.color}
  {
    var font := server.OpenFont(fontName);
    if font == None {
      return Failed(FontNotLoaded(fontName));
    }
    var color := server.AllocColor(colorName);
    if color == None {
      server.CloseFont(font);
      return Failed(ColorNotAllocated(colorName));
    }
    var created := new Label(server, x, y, text, font, color);
    r := Created(created);
  }

  /** Setting the same text twice invalidates at most once. */
  method SetTextTwice(l: Label, t: string)
    modifies l`text, l`needsRedraw, l`invalidations
    ensures l.text == t
    ensures l.invalidations <= old(l.invalidations) + 1
  {
    l.SetText(t);
    l.SetText(t);
  }
}

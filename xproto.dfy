/**
 * The X11/Xft boundary, as the widgets and the window see it.
 *
 * Every drawing or resource call the core makes on the display connection is
 * recorded, in order, in the request log of an `XServer` object, whether it
 * succeeds or not (a failed lookup with the `None` it returned). Resource
 * allocation hands out fresh ids, and whether an allocation, a font lookup, a
 * colour lookup or an `XftDrawCreate` succeeds is fixed per server by its
 * constant capability fields: those are the outcomes of calls whose code is
 * not part of this model.
 */
module XProtocol {

  /** A Pixmap, font or colour id; 0 is X's `None`. */
  type ResourceId = nat

  const None: ResourceId := 0

  /** A drawable target: an offscreen pixmap or the application window. */
  datatype Drawable = Pix(pixmap: ResourceId) | Win

  /** A foreground pixel value. */
  datatype Pixel = WhitePixel | Rgb(value: int)

  /** Highlight colour of a label selection. */
  const SelectionGray: Pixel := Rgb(0xAAAAAA)

  /** One request sent on the display connection, named after the Xlib/Xft call. */
  datatype Request =
    | XCreatePixmap(pixmap: ResourceId, width: int, height: int)
    | XFreePixmap(pixmap: ResourceId)
    | XCopyArea(src: Drawable, dst: Drawable, width: int, height: int, dstX: int, dstY: int)
    | XSetForeground(pixel: Pixel)
    | XFillRectangle(dst: Drawable, x: int, y: int, width: int, height: int)
    | XftDrawCreate(dst: Drawable)
    | XftDrawStringUtf8(dst: Drawable, x: int, y: int, text: string)
    | XftDrawDestroy(dst: Drawable)
    | XftFontOpenName(name: string, font: ResourceId)
    | XftFontClose(font: ResourceId)
    | XftColorAllocName(name: string, color: ResourceId)
    | XftColorFree(color: ResourceId)
    | XFlush

  /**
   * An event as `XNextEvent` delivers it. For a key press the result of
   * `XLookupString` is carried along: the keysym and the bytes it produced.
   */
  datatype Event =
    | KeyPress(keysym: int, chars: seq<char>)
    | ButtonPress(button: int, x: int, y: int)
    | MotionNotify(x: int, y: int)
    | ButtonRelease(button: int, x: int, y: int)
    | Expose(count: int)
    | MappingNotify
    | OtherEvent

  const Button1: int := 1
  const XK_q: int := 0x0071
  const XK_BackSpace: int := 0xff08
  const XK_Return: int := 0xff0d

  class XServer {
    /** Every request sent so far, oldest first. */
    var log: seq<Request>
    /** Resources allocated and not yet freed. */
    var live: set<ResourceId>
    /** The id the next successful allocation hands out. */
    var nextId: ResourceId

    /** Whether `XCreatePixmap` succeeds on this display. */
    const pixmapsAvailable: bool
    /** Font names `XftFontOpenName` can open. */
    const fonts: set<string>
    /** Colour names `XftColorAllocName` can allocate. */
    const colors: set<string>
    /** Whether `XftDrawCreate` succeeds on this display. */
    const xftUsable: bool

    ghost predicate Valid()
      reads this
    {
      0 < nextId && forall r | r in live :: 0 < r < nextId
    }

    constructor (pixmapsAvailable: bool, fonts: set<string>, colors: set<string>, xftUsable: bool)
      ensures Valid() && log == [] && live == {}
      ensures this.pixmapsAvailable == pixmapsAvailable && this.fonts == fonts
      ensures this.colors == colors && this.xftUsable == xftUsable
    {
      this.pixmapsAvailable := pixmapsAvailable;
      this.fonts := fonts;
      this.colors := colors;
      this.xftUsable := xftUsable;
      log := [];
      live := {};
      nextId := 1;
    }

    /** The id `XCreatePixmap` would return now: `None` exactly when it fails. */
    function NextPixmap(): (p: ResourceId)
      reads this
      requires Valid()
      ensures p == None <==> !pixmapsAvailable
      ensures p != None ==> p !in live
    {
      if pixmapsAvailable then nextId else None
    }

    /** Hands out a fresh id and marks it live. */
    method Allocate() returns (id: ResourceId)
      requires Valid()
      modifies this`live, this`nextId
      ensures Valid()
      ensures id != None && id !in old(live) && live == old(live) + {id}
      ensures id == old(nextId)
    {
      id := nextId;
      live := live + {id};
      nextId := nextId + 1;
    }

    method Send(r: Request)
      modifies this`log
      ensures log == old(log) + [r]
    {
      log := log + [r];
    }

    method CreatePixmap(width: int, height: int) returns (p: ResourceId)
      requires Valid()
      modifies this
      ensures Valid()
      ensures p == old(NextPixmap())
      ensures p != None ==> p !in old(live) && live == old(live) + {p}
      ensures p == None ==> live == old(live)
      ensures log == old(log) + [XCreatePixmap(p, width, height)]
    {
      p := None;
      if pixmapsAvailable {
        p := Allocate();
      }
      Send(XCreatePixmap(p, width, height));
    }

    method FreePixmap(p: ResourceId)
      modifies this`live, this`log
      ensures live == old(live) - {p}
      ensures log == old(log) + [XFreePixmap(p)]
    {
      live := live - {p};
      Send(XFreePixmap(p));
    }

    /** `XftFontOpenName`: a fresh font id, or `None` for an unknown name. */
    method OpenFont(name: string) returns (f: ResourceId)
      requires Valid()
      modifies this
      ensures Valid()
      ensures f == None <==> name !in fonts
      ensures f != None ==> f == old(nextId)
      ensures f != None ==> f !in old(live) && live == old(live) + {f}
      ensures f == None ==> live == old(live)
      ensures log == old(log) + [XftFontOpenName(name, f)]
    {
      f := None;
      if name in fonts {
        f := Allocate();
      }
      Send(XftFontOpenName(name, f));
    }

    method CloseFont(f: ResourceId)
      modifies this`live, this`log
      ensures live == old(live) - {f}
      ensures log == old(log) + [XftFontClose(f)]
    {
      live := live - {f};
      Send(XftFontClose(f));
    }

    /** `XftColorAllocName`: a fresh colour id, or `None` when the name cannot be allocated. */
    method AllocColor(name: string) returns (c: ResourceId)
      requires Valid()
      modifies this
      ensures Valid()
      ensures c == None <==> name !in colors
      ensures c != None ==> c == old(nextId)
      ensures c != None ==> c !in old(live) && live == old(live) + {c}
      ensures c == None ==> live == old(live)
      ensures log == old(log) + [XftColorAllocName(name, c)]
    {
      c := None;
      if name in colors {
        c := Allocate();
      }
      Send(XftColorAllocName(name, c));
    }

    method FreeColor(c: ResourceId)
      modifies this`live, this`log
      ensures live == old(live) - {c}
      ensures log == old(log) + [XftColorFree(c)]
    {
      live := live - {c};
      Send(XftColorFree(c));
    }
  }
}

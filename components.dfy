/**
 * The two widget base classes: `VisibleComponent`, which creates its
 * offscreen buffer lazily on the first draw, and `BufferedComponent`, which
 * owns a buffer from construction and repaints it only when flagged stale.
 *
 * Their paint hooks (`updateBuffer`, `drawOnBuffer`) belong to subclasses; a
 * hook call is counted in a ghost counter, and `updateBuffer`'s effect is the
 * pixmap id it leaves in the buffer field, given as a parameter.
 */
module Components {
  import opened XProtocol

  /** A constructed object, or the `std::runtime_error` its constructor threw. */
  datatype Built<T> = Created(obj: T) | Failed(reason: ConstructionError)

  datatype ConstructionError =
    | PixmapNotCreated
    | FontNotLoaded(fontName: string)
    | ColorNotAllocated(colorName: string)

  class VisibleComponent {
    const server: XServer
    const x: int
    const y: int
    const width: int
    const height: int
    /** The offscreen buffer; `None` until `updateBuffer` produces one. */
    var buffer: ResourceId
    /** Number of `updateBuffer` calls so far. */
    ghost var updates: nat

    constructor (server: XServer, x: int, y: int, width: int, height: int)
      ensures this.server == server && this.x == x && this.y == y
      ensures this.width == width && this.height == height
      ensures buffer == None && updates == 0
    {
      this.server := server;
      this.x, this.y := x, y;
      this.width, this.height := width, height;
      buffer := None;
      updates := 0;
    }

    /** The subclass hook; it leaves `rendered` in the buffer field. */
    method UpdateBuffer(rendered: ResourceId)
      modifies this`buffer, this`updates
      ensures buffer == rendered && updates == old(updates) + 1
    {
      buffer := rendered;
      updates := updates + 1;
    }

    /**
     * Produces the buffer only while there is none, then copies the whole
     * buffer to the component's position on `target`.
     */
    method Draw(target: Drawable, rendered: ResourceId)
      modifies this`buffer, this`updates, server`log
      ensures old(buffer) == None ==> buffer == rendered && updates == old(updates) + 1
      ensures old(buffer) != None ==> buffer == old(buffer) && updates == old(updates)
      ensures server.log == old(server.log) + [XCopyArea(Pix(buffer), target, width, height, x, y)]
    {
      if buffer == None {
        UpdateBuffer(rendered);
      }
      server.Send(XCopyArea(Pix(buffer), target, width, height, x, y));
    }

    /** The destructor: frees the buffer only if one was produced. */
    method Dispose()
      modifies server`live, server`log
      ensures buffer != None ==> server.live == old(server.live) - {buffer}
      ensures buffer != None ==> server.log == old(server.log) + [XFreePixmap(buffer)]
      ensures buffer == None ==> server.live == old(server.live) && server.log == old(server.log)
    {
      if buffer != None {
        server.FreePixmap(buffer);
      }
    }
  }

  class BufferedComponent {
    const server: XServer
    const width: int
    const height: int
    /** The offscreen buffer allocated by the constructor. */
    const buffer: ResourceId
    /** The only state that decides whether `draw` repaints. */
    var needsRedraw: bool
    /** Number of `drawOnBuffer` calls so far. */
    ghost var paints: nat

    /** The part of the constructor after a successful allocation. */
    constructor (server: XServer, width: int, height: int, buffer: ResourceId)
      ensures this.server == server && this.width == width && this.height == height
      ensures this.buffer == buffer && needsRedraw && paints == 0
    {
      this.server := server;
      this.width, this.height := width, height;
      this.buffer := buffer;
      needsRedraw := true;
      paints := 0;
    }

    /** The subclass paint hook; only `Draw` calls it. */
    method DrawOnBuffer()
      modifies this`paints
      ensures paints == old(paints) + 1
    {
      paints := paints + 1;
    }

    /** Repaints iff stale, always leaves the flag clear, then copies the buffer to (0, 0). */
    method Draw(target: Drawable)
      modifies this`needsRedraw, this`paints, server`log
      ensures !needsRedraw
      ensures paints == old(paints) + (if old(needsRedraw) then 1 else 0)
      ensures server.log == old(server.log) + [XCopyArea(Pix(buffer), target, width, height, 0, 0)]
    {
      if needsRedraw {
        DrawOnBuffer();
        needsRedraw := false;
      }
      server.Send(XCopyArea(Pix(buffer), target, width, height, 0, 0));
    }

    /** Marks the buffer stale; calling it again changes nothing more. */
    method InvalidateBuffer()
      modifies this`needsRedraw
      ensures needsRedraw
    {
      needsRedraw := true;
    }

    /** The destructor: frees the buffer if it is not `None`. */
    method Dispose()
      modifies server`live, server`log
      ensures buffer != None ==> server.live == old(server.live) - {buffer}
      ensures buffer != None ==> server.log == old(server.log) + [XFreePixmap(buffer)]
      ensures buffer == None ==> server.live == old(server.live) && server.log == old(server.log)
    {
      if buffer != None {
        server.FreePixmap(buffer);
      }
    }
  }

  /**
   * The `BufferedComponent` constructor: allocates a `width` x `height`
   * pixmap and throws when the allocation yields `None`. A new component is
   * stale, so its first draw paints.
   */
  method NewBufferedComponent(server: XServer, width: int, height: int) returns (r: Built<BufferedComponent>)
    requires server.Valid()
    modifies server
    ensures server.Valid()
    ensures r.Failed? <==> !server.pixmapsAvailable
    ensures r.Failed? ==> r.reason == PixmapNotCreated && server.live == old(server.live)
    ensures r.Created? ==> fresh(r.obj) && r.obj.server == server
    ensures r.Created? ==> r.obj.needsRedraw && r.obj.paints == 0
    ensures r.Created? ==> r.obj.buffer != None && r.obj.buffer !in old(server.live)
    ensures r.Created? ==> server.live == old(server.live) + {r.obj.buffer}
    ensures server.log == old(server.log) + [XCreatePixmap(if r.Created? then r.obj.buffer else None, width, height)]
  {
    var pixmap := server.CreatePixmap(width, height);
    if pixmap == None {
      return Failed(PixmapNotCreated);
    }
    var c := new BufferedComponent(server, width, height, pixmap);
    r := Created(c);
  }

  /** Two draws with no invalidation between them paint once if the component was stale, else never: the second never paints. */
  method DrawTwice(c: BufferedComponent, target: Drawable)
    modifies c`needsRedraw, c`paints, c.server`log
    ensures c.paints == old(c.paints) + (if old(c.needsRedraw) then 1 else 0)
    ensures !c.needsRedraw
  {
    c.Draw(target);
    c.Draw(target);
  }

  /** Invalidating several times before a draw triggers exactly one paint. */
  method InvalidateTwiceThenDraw(c: BufferedComponent, target: Drawable)
    modifies c`needsRedraw, c`paints, c.server`log
    ensures c.paints == old(c.paints) + 1
    ensures !c.needsRedraw
  {
    c.InvalidateBuffer();
    c.InvalidateBuffer();
    c.Draw(target);
  }

  /** Once a buffer exists, further draws never call `updateBuffer` again. */
  method DrawAfterBufferExists(c: VisibleComponent, target: Drawable, first: ResourceId, second: ResourceId)
    requires first != None
    modifies c`buffer, c`updates, c.server`log
    ensures c.updates <= old(c.updates) + 1
    ensures old(c.buffer) != None ==> c.buffer == old(c.buffer) && c.updates == old(c.updates)
    ensures old(c.buffer) == None ==> c.buffer == first
  {
    c.Draw(target, first);
    c.Draw(target, second);
  }
}

/** The frame drawn around one window: the drag and resize gesture it runs on
    pointer events, the title-bar buttons, and what it draws. */
module WindowChrome {
  import opened Wrappers
  import opened WindowManager

  datatype Rect = Rect(x: int, y: int, width: int, height: int)

  function Right(r: Rect): int { r.x + r.width }
  function Bottom(r: Rect): int { r.y + r.height }

  function Geometry(w: WindowRecord): Rect
  {
    Rect(w.x, w.y, w.width, w.height)
  }

  /** The grab offset recorded when the title bar is pressed at the pointer. */
  function GrabOffset(w: WindowRecord, px: int, py: int): (int, int)
  {
    (px - w.x, py - w.y)
  }

  /** Where a drag puts the window's origin when the pointer is at (px, py):
      the pointer minus the grab offset, with the top edge kept on screen. */
  function DragPosition(offset: (int, int), px: int, py: int): (p: (int, int))
    ensures p.0 + offset.0 == px
    ensures p.1 >= 0 && p.1 >= py - offset.1
    ensures p.1 == py - offset.1 || p.1 == 0
  {
    (px - offset.0, if py - offset.1 < 0 then 0 else py - offset.1)
  }

  /** Returning the pointer to where it grabbed the title bar puts the window
      back where it was, provided its top edge was on screen. */
  lemma DragBackToGrabPoint(w: WindowRecord, px: int, py: int)
    requires w.y >= 0
    ensures DragPosition(GrabOffset(w, px, py), px, py) == (w.x, w.y)
  {
  }

  /** The geometry a resize toward the pointer proposes, edge by edge: a
      direction with `w` (`n`) carries the left (top) edge to the pointer and
      keeps the right (bottom) edge; otherwise one with `e` (`s`) carries the
      right (bottom) edge to the pointer and keeps the left (top) edge;
      otherwise that axis stays as it is. The top edge is not kept on screen. */
  function ResizeRect(g: Rect, dir: string, px: int, py: int): (r: Rect)
    ensures 'w' in dir ==> r.x == px && Right(r) == Right(g)
    ensures 'w' !in dir ==> r.x == g.x
    ensures 'w' !in dir && 'e' in dir ==> Right(r) == px
    ensures 'w' !in dir && 'e' !in dir ==> r.width == g.width
    ensures 'n' in dir ==> r.y == py && Bottom(r) == Bottom(g)
    ensures 'n' !in dir ==> r.y == g.y
    ensures 'n' !in dir && 's' in dir ==> Bottom(r) == py
    ensures 'n' !in dir && 's' !in dir ==> r.height == g.height
  {
    var left := if 'w' in dir then px else g.x;
    var right := if 'w' in dir then Right(g) else if 'e' in dir then px else Right(g);
    var top := if 'n' in dir then py else g.y;
    var bottom := if 'n' in dir then Bottom(g) else if 's' in dir then py else Bottom(g);
    Rect(left, top, right - left, bottom - top)
  }

  /** A proposed geometry is applied only when both sides meet the minimums. */
  predicate Fits(r: Rect, w: WindowRecord)
  {
    r.width >= w.minWidth && r.height >= w.minHeight
  }

  /** The registry's list after a resize move: the whole update (size and
      position) or nothing. */
  function AfterResize(ws: seq<WindowRecord>, w: WindowRecord, dir: string, px: int, py: int): seq<WindowRecord>
  {
    var r := ResizeRect(Geometry(w), dir, px, py);
    if !Fits(r, w) then ws
    else
      var sized := Apply(ws, w.id, Resize(r.width, r.height));
      if 'w' in dir || 'n' in dir then Apply(sized, w.id, Move(r.x, r.y)) else sized
  }

  /** A resize that fits leaves the window exactly at the proposed geometry;
      one that does not fit changes nothing. */
  lemma AfterResizeGeometry(ws: seq<WindowRecord>, w: WindowRecord, dir: string, px: int, py: int, k: nat)
    requires k < |ws| && ws[k] == w
    ensures var r := ResizeRect(Geometry(w), dir, px, py);
      var w' := AfterResize(ws, w, dir, px, py)[k];
      && |AfterResize(ws, w, dir, px, py)| == |ws|
      && (Fits(r, w) ==> Geometry(w') == r)
      && (!Fits(r, w) ==> w' == w)
  {
  }

  /** What the frame draws: nothing for a minimized window, the whole desktop
      above the taskbar for a maximized one, otherwise the stored box. */
  datatype Placement = Hidden | FillDesktop | Placed(box: Rect)

  function PlacementOf(w: WindowRecord): (p: Placement)
    ensures p.Hidden? <==> w.isMinimized
    ensures p.FillDesktop? <==> !w.isMinimized && w.isMaximized
    ensures p.Placed? ==> p.box == Geometry(w)
  {
    if w.isMinimized then Hidden
    else if w.isMaximized then FillDesktop
    else Placed(Geometry(w))
  }

  /** A maximized window's placement does not depend on its stored geometry. */
  lemma MaximizedIgnoresGeometry(w: WindowRecord, x: int, y: int, width: int, height: int)
    requires w.isMaximized
    ensures PlacementOf(w) == PlacementOf(w.(x := x, y := y, width := width, height := height))
  {
  }

  /** The title bar is drawn active iff the focused id is this window's. */
  predicate TitleActive(active: Option<string>, w: WindowRecord)
  {
    active == Some(w.id)
  }

  /** With unique ids, at most one window's title bar is drawn active. */
  lemma OneTitleActive(active: Option<string>, ws: seq<WindowRecord>, i: nat, j: nat)
    requires UniqueIds(ws) && i < |ws| && j < |ws|
    requires TitleActive(active, ws[i]) && TitleActive(active, ws[j])
    ensures i == j
  {
  }

  /** The resize handler's edge arithmetic: each letter of the handle's
      direction moves its edge to the pointer, west and north after east and
      south. */
  method ProposeResize(w: WindowRecord, dir: string, px: int, py: int) returns (r: Rect)
    ensures r == ResizeRect(Geometry(w), dir, px, py)
  {
    var newWidth := w.width;
    var newHeight := w.height;
    var newX := w.x;
    var newY := w.y;
    if 'e' in dir {
      newWidth := px - w.x;
    }
    if 'w' in dir {
      newWidth := w.x + w.width - px;
      newX := px;
    }
    if 's' in dir {
      newHeight := py - w.y;
    }
    if 'n' in dir {
      newHeight := w.y + w.height - py;
      newY := py;
    }
    r := Rect(newX, newY, newWidth, newHeight);
  }

  /** The gesture state of one window's frame. */
  class Frame {
    const registry: Registry
    const id: string
    var isDragging: bool
    var isResizing: bool
    var resizeDirection: string
    var dragOffset: (int, int)
    /** The label of the menu-bar menu that is open, if any. */
    var openMenu: Option<string>

    constructor (registry: Registry, id: string)
      ensures this.registry == registry && this.id == id
      ensures !isDragging && !isResizing && resizeDirection == "" && dragOffset == (0, 0)
      ensures openMenu == None
    {
      openMenu := None;
      this.registry := registry;
      this.id := id;
      isDragging := false;
      isResizing := false;
      resizeDirection := "";
      dragOffset := (0, 0);
    }

    /** Pressing the title bar of a window that is not maximized focuses it,
        starts a drag and records the grab offset; on a maximized window it does nothing. */
    method TitleMouseDown(px: int, py: int)
      requires registry.Valid() && Present(registry.windows, id)
      modifies this, registry
      ensures registry.Valid()
      ensures var w := Lookup(old(registry.windows), id);
        if w.isMaximized then
          && registry.windows == old(registry.windows) && registry.activeWindowId == old(registry.activeWindowId)
          && registry.nextZIndex == old(registry.nextZIndex)
          && isDragging == old(isDragging) && dragOffset == old(dragOffset)
        else
          && registry.windows == Apply(old(registry.windows), id, Raise(old(registry.nextZIndex)))
          && registry.activeWindowId == Some(id) && registry.nextZIndex == old(registry.nextZIndex) + 1
          && isDragging && dragOffset == GrabOffset(w, px, py)
      ensures isResizing == old(isResizing) && resizeDirection == old(resizeDirection) && openMenu == old(openMenu)
    {
      var w := Lookup(registry.windows, id);
      if w.isMaximized {
        return;
      }
      registry.FocusWindow(id);
      isDragging := true;
      dragOffset := (px - w.x, py - w.y);
    }

    /** Pressing one of the eight edge handles focuses the window and starts a
        resize in that direction. */
    method ResizeMouseDown(direction: string)
      requires registry.Valid()
      modifies this, registry
      ensures registry.Valid()
      ensures registry.windows == Apply(old(registry.windows), id, Raise(old(registry.nextZIndex)))
      ensures registry.activeWindowId == Some(id) && registry.nextZIndex == old(registry.nextZIndex) + 1
      ensures isResizing && resizeDirection == direction
      ensures isDragging == old(isDragging) && dragOffset == old(dragOffset) && openMenu == old(openMenu)
    {
      registry.FocusWindow(id);
      isResizing := true;
      resizeDirection := direction;
    }

    /** A pointer move: a drag moves the window to the drag position, a resize
        applies the whole proposed geometry or nothing; both read the window as
        it was before the event and do nothing while it is maximized. */
    method MouseMove(px: int, py: int)
      requires registry.Valid() && Present(registry.windows, id)
      modifies registry
      ensures registry.Valid()
      ensures var w := Lookup(old(registry.windows), id);
        var dragged := if isDragging && !w.isMaximized
          then Apply(old(registry.windows), id, Move(DragPosition(dragOffset, px, py).0, DragPosition(dragOffset, px, py).1))
          else old(registry.windows);
        registry.windows == if isResizing && !w.isMaximized then AfterResize(dragged, w, resizeDirection, px, py) else dragged
      ensures registry.activeWindowId == old(registry.activeWindowId) && registry.nextZIndex == old(registry.nextZIndex)
    {
      var w := Lookup(registry.windows, id);
      DragStep(w, px, py);
      ResizeStep(w, px, py);
    }

    /** The drag half of a pointer move. */
    method DragStep(w: WindowRecord, px: int, py: int)
      requires registry.Valid()
      modifies registry
      ensures registry.Valid()
      ensures registry.windows == if isDragging && !w.isMaximized
        then Apply(old(registry.windows), id, Move(DragPosition(dragOffset, px, py).0, DragPosition(dragOffset, px, py).1))
        else old(registry.windows)
      ensures registry.activeWindowId == old(registry.activeWindowId) && registry.nextZIndex == old(registry.nextZIndex)
    {
      if isDragging && !w.isMaximized {
        var newX := px - dragOffset.0;
        var newY := if py - dragOffset.1 < 0 then 0 else py - dragOffset.1;
        registry.UpdateWindowPosition(id, newX, newY);
      }
    }

    /** The resize half of a pointer move: the geometry proposed from the
        window as it was before the event, applied whole or not at all. */
    method ResizeStep(w: WindowRecord, px: int, py: int)
      requires registry.Valid() && w.id == id
      modifies registry
      ensures registry.Valid()
      ensures registry.windows == if isResizing && !w.isMaximized
        then AfterResize(old(registry.windows), w, resizeDirection, px, py)
        else old(registry.windows)
      ensures registry.activeWindowId == old(registry.activeWindowId) && registry.nextZIndex == old(registry.nextZIndex)
    {
      if isResizing && !w.isMaximized {
        var r := ProposeResize(w, resizeDirection, px, py);
        if r.width >= w.minWidth && r.height >= w.minHeight {
          registry.UpdateWindowSize(id, r.width, r.height);
          if 'w' in resizeDirection || 'n' in resizeDirection {
            registry.UpdateWindowPosition(id, r.x, r.y);
          }
        }
      }
    }

    /** Releasing the pointer anywhere ends both gestures. */
    method MouseUp()
      modifies this
      ensures !isDragging && !isResizing
      ensures resizeDirection == old(resizeDirection) && dragOffset == old(dragOffset) && openMenu == old(openMenu)
    {
      isDragging := false;
      isResizing := false;
    }

    /** Double-clicking the title bar, like the maximize button, restores a
        maximized window and maximizes any other. */
    method ToggleMaximize()
      requires registry.Valid() && Present(registry.windows, id)
      modifies registry
      ensures registry.Valid()
      ensures if Lookup(old(registry.windows), id).isMaximized then
          && registry.windows == Apply(old(registry.windows), id, Restore(old(registry.nextZIndex)))
          && registry.activeWindowId == Some(id) && registry.nextZIndex == old(registry.nextZIndex) + 1
        else
          && registry.windows == Apply(old(registry.windows), id, Maximize)
          && registry.activeWindowId == old(registry.activeWindowId) && registry.nextZIndex == old(registry.nextZIndex)
      ensures Lookup(registry.windows, id).isMaximized == !Lookup(old(registry.windows), id).isMaximized
    {
      var w := Lookup(registry.windows, id);
      if w.isMaximized {
        registry.RestoreWindow(id);
      } else {
        registry.MaximizeWindow(id);
      }
      LookupAfterApply(old(registry.windows), id, if w.isMaximized then Restore(old(registry.nextZIndex)) else Maximize);
    }

    /** Clicking a menu-bar label opens that menu, or closes it when it is the open one. */
    method MenuClick(menu: string)
      modifies this
      ensures old(openMenu) == Some(menu) ==> openMenu == None
      ensures old(openMenu) != Some(menu) ==> openMenu == Some(menu)
      ensures isDragging == old(isDragging) && isResizing == old(isResizing)
      ensures resizeDirection == old(resizeDirection) && dragOffset == old(dragOffset)
    {
      openMenu := if openMenu == Some(menu) then None else Some(menu);
    }

    /** Choosing an item runs its action (not modelled) and closes the menu. */
    method MenuItemClick()
      modifies this
      ensures openMenu == None
      ensures isDragging == old(isDragging) && isResizing == old(isResizing)
      ensures resizeDirection == old(resizeDirection) && dragOffset == old(dragOffset)
    {
      openMenu := None;
    }

    /** The minimize button. */
    method MinimizeClick()
      requires registry.Valid()
      modifies registry
      ensures registry.Valid()
      ensures registry.windows == Apply(old(registry.windows), id, Minimize)
      ensures registry.activeWindowId == if old(registry.activeWindowId) == Some(id) then None else old(registry.activeWindowId)
      ensures registry.nextZIndex == old(registry.nextZIndex)
    {
      registry.MinimizeWindow(id);
    }

    /** The close button. */
    method CloseClick()
      requires registry.Valid()
      modifies registry
      ensures registry.Valid()
      ensures registry.windows == Without(old(registry.windows), id)
      ensures !Present(registry.windows, id)
      ensures registry.activeWindowId == if old(registry.activeWindowId) == Some(id) then None else old(registry.activeWindowId)
      ensures registry.nextZIndex == old(registry.nextZIndex)
    {
      registry.CloseWindow(id);
    }

    /** A click anywhere in the window focuses it. */
    method WindowClick()
      requires registry.Valid()
      modifies registry
      ensures registry.Valid()
      ensures registry.windows == Apply(old(registry.windows), id, Raise(old(registry.nextZIndex)))
      ensures registry.activeWindowId == Some(id) && OnTop(registry.windows, id)
      ensures registry.nextZIndex == old(registry.nextZIndex) + 1
    {
      registry.FocusWindow(id);
    }
  }

  /** In a list with unique ids, the record found by id after a change is the changed record. */
  lemma LookupAfterApply(ws: seq<WindowRecord>, id: string, c: Change)
    requires Present(ws, id)
    ensures Present(Apply(ws, id, c), id)
    ensures Lookup(Apply(ws, id, c), id) == Changed(Lookup(ws, id), c)
  {
    var k := IndexOf(ws, id).value;
    var r := Apply(ws, id, c);
    assert r[k].id == id;
    assert IndexOf(r, id) == Some(k) by {
      forall j | 0 <= j < k ensures r[j].id != id { }
    }
  }
}

/** The taskbar: one button per open window and the rule a button click follows. */
module Taskbar {
  import opened Wrappers
  import opened WindowManager

  /** The registry operation a click on a window's button chooses. */
  datatype ButtonAction = NoAction | RestoreIt | MinimizeIt | FocusIt

  /** A click on an id not in the list does nothing; on a minimized window it
      restores; on the focused window it minimizes; otherwise it focuses. */
  function ClickAction(ws: seq<WindowRecord>, active: Option<string>, id: string): (a: ButtonAction)
    ensures a.NoAction? <==> !Present(ws, id)
    ensures a.RestoreIt? <==> Present(ws, id) && Lookup(ws, id).isMinimized
    ensures a.MinimizeIt? <==> Present(ws, id) && !Lookup(ws, id).isMinimized && active == Some(id)
    ensures a.FocusIt? <==> Present(ws, id) && !Lookup(ws, id).isMinimized && active != Some(id)
  {
    match IndexOf(ws, id)
    case None => NoAction
    case Some(k) =>
      if ws[k].isMinimized then RestoreIt
      else if active == Some(id) then MinimizeIt
      else FocusIt
  }

  /** A window's button is drawn pressed iff the window is focused and not minimized. */
  predicate Pressed(active: Option<string>, w: WindowRecord)
  {
    active == Some(w.id) && !w.isMinimized
  }

  datatype Button = Button(id: string, icon: string, title: string, pressed: bool)

  /** A window's button shows its icon and title and is pressed exactly when
      the window is focused and visible. */
  function ButtonFor(active: Option<string>, w: WindowRecord): (b: Button)
    ensures b.id == w.id && b.icon == w.icon && b.title == w.title
    ensures b.pressed <==> active == Some(w.id) && !w.isMinimized
  {
    Button(w.id, w.icon, w.title, Pressed(active, w))
  }

  /** The buttons drawn: one per record, minimized ones included, in list order. */
  function Buttons(ws: seq<WindowRecord>, active: Option<string>): (bs: seq<Button>)
    ensures |bs| == |ws|
    ensures forall i :: 0 <= i < |ws| ==> bs[i] == ButtonFor(active, ws[i])
  {
    seq(|ws|, i requires 0 <= i < |ws| => ButtonFor(active, ws[i]))
  }

  /** With unique ids at most one button is pressed, and it is the focused window's. */
  lemma AtMostOnePressed(ws: seq<WindowRecord>, active: Option<string>)
    requires UniqueIds(ws)
    ensures var bs := Buttons(ws, active);
      forall i, j :: 0 <= i < |bs| && 0 <= j < |bs| && bs[i].pressed && bs[j].pressed ==> i == j
    ensures var bs := Buttons(ws, active);
      forall i :: 0 <= i < |bs| && bs[i].pressed ==> active == Some(bs[i].id)
  {
  }

  /** Some button is pressed exactly when the focused id names an open,
      visible window, and then it is that window's button. */
  lemma PressedIffFocusedVisible(ws: seq<WindowRecord>, active: Option<string>)
    requires UniqueIds(ws)
    ensures var bs := Buttons(ws, active);
      (exists i :: 0 <= i < |bs| && bs[i].pressed) <==>
        active.Some? && Present(ws, active.value) && !Lookup(ws, active.value).isMinimized
  {
    var bs := Buttons(ws, active);
    if active.Some? && Present(ws, active.value) {
      var k := IndexOf(ws, active.value).value;
      assert bs[k].pressed <==> !Lookup(ws, active.value).isMinimized;
      if exists i :: 0 <= i < |bs| && bs[i].pressed {
        var i :| 0 <= i < |bs| && bs[i].pressed;
        assert ws[i].id == ws[k].id;
      }
    }
  }

  /** A click on a window's button: the chosen registry operation and nothing else. */
  method WindowButtonClick(registry: Registry, id: string) returns (a: ButtonAction)
    requires registry.Valid()
    modifies registry
    ensures registry.Valid()
    ensures a == ClickAction(old(registry.windows), old(registry.activeWindowId), id)
    ensures a.NoAction? ==>
      registry.windows == old(registry.windows) && registry.activeWindowId == old(registry.activeWindowId)
      && registry.nextZIndex == old(registry.nextZIndex)
    ensures a.RestoreIt? ==>
      registry.windows == Apply(old(registry.windows), id, Restore(old(registry.nextZIndex)))
      && registry.activeWindowId == Some(id) && OnTop(registry.windows, id)
      && registry.nextZIndex == old(registry.nextZIndex) + 1
    ensures a.MinimizeIt? ==>
      registry.windows == Apply(old(registry.windows), id, Minimize) && registry.activeWindowId == None
      && registry.nextZIndex == old(registry.nextZIndex)
    ensures a.FocusIt? ==>
      registry.windows == Apply(old(registry.windows), id, Raise(old(registry.nextZIndex)))
      && registry.activeWindowId == Some(id) && OnTop(registry.windows, id)
      && registry.nextZIndex == old(registry.nextZIndex) + 1
  {
    a := ClickAction(registry.windows, registry.activeWindowId, id);
    match a
    case NoAction =>
    case RestoreIt => registry.RestoreWindow(id);
    case MinimizeIt => registry.MinimizeWindow(id);
    case FocusIt => registry.FocusWindow(id);
  }

  /** Clicking the same button twice on a focused, visible window minimizes it
      and then restores it, leaving it focused and on top again. */
  lemma TwoClicksOnFocused(ws: seq<WindowRecord>, id: string, z: int)
    requires UniqueIds(ws) && Present(ws, id) && !Lookup(ws, id).isMinimized
    ensures ClickAction(ws, Some(id), id) == MinimizeIt
    ensures ClickAction(Apply(ws, id, Minimize), None, id) == RestoreIt
  {
    var k := IndexOf(ws, id).value;
    var ws' := Apply(ws, id, Minimize);
    assert ws'[k].id == id && ws'[k].isMinimized;
    assert IndexOf(ws', id) == Some(k) by {
      forall j | 0 <= j < k ensures ws'[j].id != id { }
    }
  }
}

/** The desktop's UI flags: the wallpaper, the selected icon, whether the
    Start menu is open and the context menu shown, of which only the
    wallpaper is saved across visits. */
module DesktopStore {
  import opened Wrappers

  datatype Wallpaper = Clouds | Geometric | Brick | Circuit | Solid

  /** A context menu entry; what choosing it does is not part of this model. */
  datatype ContextMenuItem = ContextMenuItem(caption: string, disabled: bool, separator: bool)

  datatype ContextMenu = ContextMenu(x: int, y: int, items: seq<ContextMenuItem>)

  /** The store's fields as one value. */
  datatype Flags = Flags(wallpaper: Wallpaper, selectedIconId: Option<string>, startMenuOpen: bool,
                         contextMenu: Option<ContextMenu>)

  const Initial: Flags := Flags(Clouds, None, false, None)

  /** The store's setters. */
  datatype Action =
    | SetWallpaper(w: Wallpaper)
    | SetSelectedIcon(id: Option<string>)
    | ToggleStartMenu
    | CloseStartMenu
    | OpenContextMenu(x: int, y: int, items: seq<ContextMenuItem>)
    | CloseContextMenu

  /** The state after a setter: each one writes its own field and no other. */
  function Step(s: Flags, a: Action): (r: Flags)
    ensures r.wallpaper == if a.SetWallpaper? then a.w else s.wallpaper
    ensures r.selectedIconId == if a.SetSelectedIcon? then a.id else s.selectedIconId
    ensures r.startMenuOpen ==
      if a.ToggleStartMenu? then !s.startMenuOpen else if a.CloseStartMenu? then false else s.startMenuOpen
    ensures r.contextMenu ==
      if a.OpenContextMenu? then Some(ContextMenu(a.x, a.y, a.items))
      else if a.CloseContextMenu? then None else s.contextMenu
  {
    match a {
      case SetWallpaper(w) => s.(wallpaper := w)
      case SetSelectedIcon(id) => s.(selectedIconId := id)
      case ToggleStartMenu => s.(startMenuOpen := !s.startMenuOpen)
      case CloseStartMenu => s.(startMenuOpen := false)
      case OpenContextMenu(x, y, items) => s.(contextMenu := Some(ContextMenu(x, y, items)))
      case CloseContextMenu => s.(contextMenu := None)
    }
  }

  /** Two toggles restore the Start menu flag; closing is idempotent; a
      context menu shows exactly what it was opened with. */
  lemma StepLaws(s: Flags, x: int, y: int, items: seq<ContextMenuItem>)
    ensures Step(Step(s, ToggleStartMenu), ToggleStartMenu) == s
    ensures Step(s, ToggleStartMenu).startMenuOpen != s.startMenuOpen
    ensures Step(Step(s, CloseStartMenu), CloseStartMenu) == Step(s, CloseStartMenu)
    ensures !Step(s, CloseStartMenu).startMenuOpen
    ensures Step(s, OpenContextMenu(x, y, items)).contextMenu == Some(ContextMenu(x, y, items))
    ensures Step(Step(s, OpenContextMenu(x, y, items)), CloseContextMenu) == s.(contextMenu := None)
  {
  }

  /** What is saved across visits. */
  datatype Saved = Saved(wallpaper: Wallpaper)

  function Partialize(s: Flags): Saved
  {
    Saved(s.wallpaper)
  }

  /** The state at the next visit: the initial flags with the saved fields
      laid over them. */
  function Rehydrate(p: Saved): Flags
  {
    Initial.(wallpaper := p.wallpaper)
  }

  /** Only the wallpaper survives a reload: saving a restored state gives the
      same record, and a state comes back unchanged exactly when its other
      fields were at their initial values. */
  lemma SaveRestore(p: Saved, s: Flags)
    ensures Partialize(Rehydrate(p)) == p
    ensures Rehydrate(Partialize(s)) == s <==>
      s.selectedIconId == None && !s.startMenuOpen && s.contextMenu == None
  {
  }

  /** No setter but the wallpaper's changes what is saved. */
  lemma SavedOnlyByWallpaper(s: Flags, a: Action)
    ensures !a.SetWallpaper? ==> Partialize(Step(s, a)) == Partialize(s)
    ensures a.SetWallpaper? ==> Partialize(Step(s, a)) == Saved(a.w)
  {
  }

  /** The store object the components share. */
  class Store {
    var wallpaper: Wallpaper
    var selectedIconId: Option<string>
    var startMenuOpen: bool
    var contextMenu: Option<ContextMenu>

    function Current(): Flags
      reads this
    {
      Flags(wallpaper, selectedIconId, startMenuOpen, contextMenu)
    }

    constructor ()
      ensures Current() == Initial
    {
      wallpaper := Clouds;
      selectedIconId := None;
      startMenuOpen := false;
      contextMenu := None;
    }

    method SetWallpaper(w: Wallpaper)
      modifies this
      ensures Current() == Step(old(Current()), Action.SetWallpaper(w))
    {
      wallpaper := w;
    }

    method SetSelectedIcon(id: Option<string>)
      modifies this
      ensures Current() == Step(old(Current()), Action.SetSelectedIcon(id))
    {
      selectedIconId := id;
    }

    method ToggleStartMenu()
      modifies this
      ensures Current() == Step(old(Current()), Action.ToggleStartMenu)
    {
      startMenuOpen := !startMenuOpen;
    }

    method CloseStartMenu()
      modifies this
      ensures Current() == Step(old(Current()), Action.CloseStartMenu)
    {
      startMenuOpen := false;
    }

    method OpenContextMenu(x: int, y: int, items: seq<ContextMenuItem>)
      modifies this
      ensures Current() == Step(old(Current()), Action.OpenContextMenu(x, y, items))
    {
      contextMenu := Some(ContextMenu(x, y, items));
    }

    method CloseContextMenu()
      modifies this
      ensures Current() == Step(old(Current()), Action.CloseContextMenu)
    {
      contextMenu := None;
    }

    /** The record written to storage. */
    function Persisted(): (p: Saved)
      reads this
      ensures p == Partialize(Current())
    {
      Saved(wallpaper)
    }
  }
}

/** The Display Properties dialog: a pending wallpaper choice that is written
    to the store only by Apply or OK. Closing the dialog closes its window in
    the registry. */
module DisplaySettings {
  import opened Wrappers
  import opened WindowManager
  import opened DesktopStore

  datatype WallpaperEntry = WallpaperEntry(id: Wallpaper, name: string)

  /** The list the dialog offers, in order. */
  const Wallpapers: seq<WallpaperEntry> := [
    WallpaperEntry(Clouds, "Clouds"),
    WallpaperEntry(Geometric, "Geometric Pattern"),
    WallpaperEntry(Brick, "Brick Wall"),
    WallpaperEntry(Circuit, "Circuit Board"),
    WallpaperEntry(Solid, "Solid Teal")
  ]

  /** Every wallpaper is listed exactly once. */
  lemma EveryWallpaperListed(w: Wallpaper)
    ensures exists i :: 0 <= i < |Wallpapers| && Wallpapers[i].id == w
    ensures forall i, j :: 0 <= i < j < |Wallpapers| ==> Wallpapers[i].id != Wallpapers[j].id
  {
    match w {
      case Clouds => assert Wallpapers[0].id == w;
      case Geometric => assert Wallpapers[1].id == w;
      case Brick => assert Wallpapers[2].id == w;
      case Circuit => assert Wallpapers[3].id == w;
      case Solid => assert Wallpapers[4].id == w;
    }
  }

  /** The dialog: the store it writes, the registry that holds its window, and
      the pending choice. */
  class Dialog {
    const store: Store
    const registry: Registry
    const windowId: string
    var selectedWallpaper: Wallpaper

    ghost predicate Valid()
      reads this, registry
    {
      registry.Valid()
    }

    /** The pending choice starts at the stored wallpaper. */
    constructor (store: Store, registry: Registry, windowId: string)
      requires registry.Valid()
      ensures Valid() && this.store == store && this.registry == registry && this.windowId == windowId
      ensures selectedWallpaper == store.wallpaper
    {
      this.store := store;
      this.registry := registry;
      this.windowId := windowId;
      selectedWallpaper := store.wallpaper;
    }

    /** Clicking a list entry changes the pending choice only. */
    method Select(w: Wallpaper)
      modifies this
      ensures selectedWallpaper == w
      ensures store.Current() == old(store.Current())
    {
      selectedWallpaper := w;
    }

    /** Apply writes the pending choice; the window stays open. */
    method Apply()
      requires Valid()
      modifies store
      ensures Valid()
      ensures store.Current() == Step(old(store.Current()), SetWallpaper(selectedWallpaper))
      ensures store.wallpaper == selectedWallpaper
    {
      store.SetWallpaper(selectedWallpaper);
    }

    /** OK writes the pending choice and closes the window. */
    method Ok()
      requires Valid()
      modifies store, registry
      ensures Valid()
      ensures store.Current() == Step(old(store.Current()), SetWallpaper(selectedWallpaper))
      ensures registry.windows == Without(old(registry.windows), windowId) && !Present(registry.windows, windowId)
      ensures registry.activeWindowId ==
        if old(registry.activeWindowId) == Some(windowId) then None else old(registry.activeWindowId)
      ensures registry.nextZIndex == old(registry.nextZIndex)
    {
      store.SetWallpaper(selectedWallpaper);
      registry.CloseWindow(windowId);
    }

    /** Cancel closes the window and writes nothing, so an earlier Apply stays. */
    method Cancel()
      requires Valid()
      modifies registry
      ensures Valid()
      ensures store.Current() == old(store.Current())
      ensures registry.windows == Without(old(registry.windows), windowId) && !Present(registry.windows, windowId)
      ensures registry.activeWindowId ==
        if old(registry.activeWindowId) == Some(windowId) then None else old(registry.activeWindowId)
      ensures registry.nextZIndex == old(registry.nextZIndex)
    {
      registry.CloseWindow(windowId);
    }
  }

  /** Choosing, applying and then cancelling leaves the chosen wallpaper in
      the store and the dialog's window closed. */
  method ApplyThenCancel(d: Dialog, w: Wallpaper)
    requires d.Valid()
    modifies d, d.store, d.registry
    ensures d.Valid()
    ensures d.store.wallpaper == w
    ensures d.store.Current() == old(d.store.Current()).(wallpaper := w)
    ensures !Present(d.registry.windows, d.windowId)
  {
    d.Select(w);
    d.Apply();
    d.Cancel();
  }
}

/** The window registry: the ordered list of open windows, the focused id and
    the stacking counter, with the operations every part of the shell calls. */
module WindowManager {
  import opened Wrappers
  import FileExplorer

  /** The per-application payload a window carries, one variant per kind of
      window that has one. */
  datatype Props =
    | NoProps
    | ExplorerProps(files: seq<FileExplorer.FileItem>, path: string)
    | NotepadProps(content: string, title: string)
    | ImageProps(src: string, title: string)

  /** What a caller hands to `OpenWindow`: a window without its stacking value. */
  datatype Descriptor = Descriptor(
    id: string, title: string, icon: string,
    x: int, y: int, width: int, height: int, minWidth: int, minHeight: int,
    isMinimized: bool, isMaximized: bool, component: string, props: Props)

  /** One open window. Its order in the list is not its stacking order: that is `zIndex`. */
  datatype WindowRecord = WindowRecord(
    id: string, title: string, icon: string,
    x: int, y: int, width: int, height: int, minWidth: int, minHeight: int,
    isMinimized: bool, isMaximized: bool, zIndex: int, component: string, props: Props)

  /** The stacking value the registry starts from. */
  const FirstZIndex: int := 100
  /** How far each newly opened window is shifted, per window already open. */
  const CascadeStep: int := 20

  /** The record a new window gets: the descriptor shifted by `offset` on both
      axes, stacked at `z`. */
  function Created(d: Descriptor, offset: int, z: int): (w: WindowRecord)
    ensures w.id == d.id && w.x == d.x + offset && w.y == d.y + offset && w.zIndex == z
    ensures w.width == d.width && w.height == d.height && w.minWidth == d.minWidth && w.minHeight == d.minHeight
    ensures w.isMinimized == d.isMinimized && w.isMaximized == d.isMaximized
  {
    WindowRecord(d.id, d.title, d.icon, d.x + offset, d.y + offset, d.width, d.height,
                 d.minWidth, d.minHeight, d.isMinimized, d.isMaximized, z, d.component, d.props)
  }

  /** The position of the first window with this id (the `find` of the store). */
  function IndexOf(ws: seq<WindowRecord>, id: string): (r: Option<nat>)
    ensures r.Some? ==> r.value < |ws| && ws[r.value].id == id && forall j :: 0 <= j < r.value ==> ws[j].id != id
    ensures r.None? ==> forall j :: 0 <= j < |ws| ==> ws[j].id != id
  {
    if ws == [] then None
    else if ws[0].id == id then Some(0)
    else match IndexOf(ws[1..], id)
      case None => None
      case Some(k) => Some(k + 1)
  }

  predicate Present(ws: seq<WindowRecord>, id: string)
  {
    exists i :: 0 <= i < |ws| && ws[i].id == id
  }

  predicate UniqueIds(ws: seq<WindowRecord>)
  {
    forall i, j :: 0 <= i < j < |ws| ==> ws[i].id != ws[j].id
  }

  /** Stacking values are pairwise distinct and all below the counter. */
  predicate StackingBelow(ws: seq<WindowRecord>, next: int)
  {
    && (forall i, j :: 0 <= i < j < |ws| ==> ws[i].zIndex != ws[j].zIndex)
    && (forall i :: 0 <= i < |ws| ==> ws[i].zIndex < next)
  }

  /** The window named `id` is stacked strictly above every other window. */
  predicate OnTop(ws: seq<WindowRecord>, id: string)
  {
    forall i, j :: 0 <= i < |ws| && 0 <= j < |ws| && ws[i].id == id && ws[j].id != id ==> ws[j].zIndex < ws[i].zIndex
  }

  /** One change the store applies to the window whose id matches. */
  datatype Change =
    | Raise(z: int)
    | Minimize
    | Maximize
    | Restore(z: int)
    | Move(x: int, y: int)
    | Resize(width: int, height: int)

  /** The record after `c`; the new size is floored at the record's own minimums. */
  function Changed(w: WindowRecord, c: Change): (r: WindowRecord)
    ensures r.id == w.id && r.title == w.title && r.icon == w.icon && r.component == w.component && r.props == w.props
    ensures r.minWidth == w.minWidth && r.minHeight == w.minHeight
    ensures c.Resize? ==> && r.width == (if c.width < w.minWidth then w.minWidth else c.width)
                          && r.height == (if c.height < w.minHeight then w.minHeight else c.height)
    ensures !c.Resize? ==> r.width == w.width && r.height == w.height
    ensures c.Move? ==> r.x == c.x && r.y == c.y
    ensures !c.Move? ==> r.x == w.x && r.y == w.y
    ensures c.Raise? || c.Restore? ==> r.zIndex == c.z
    ensures !c.Raise? && !c.Restore? ==> r.zIndex == w.zIndex
    ensures r.isMinimized == (c.Minimize? || (w.isMinimized && !c.Restore?))
    ensures r.isMaximized == (c.Maximize? || (w.isMaximized && !c.Restore?))
  {
    match c
    case Raise(z) => w.(zIndex := z)
    case Minimize => w.(isMinimized := true)
    case Maximize => w.(isMaximized := true)
    case Restore(z) => w.(isMinimized := false, isMaximized := false, zIndex := z)
    case Move(x, y) => w.(x := x, y := y)
    case Resize(wd, ht) =>
      w.(width := if wd < w.minWidth then w.minWidth else wd,
         height := if ht < w.minHeight then w.minHeight else ht)
  }

  /** The store's update by id: every window with the id is replaced by its
      changed record, and the list keeps its order. */
  function Apply(ws: seq<WindowRecord>, id: string, c: Change): (r: seq<WindowRecord>)
    ensures |r| == |ws| && forall i :: 0 <= i < |ws| ==> r[i].id == ws[i].id
    ensures forall i :: 0 <= i < |ws| && ws[i].id != id ==> r[i] == ws[i]
    ensures forall i :: 0 <= i < |ws| && ws[i].id == id ==> r[i] == Changed(ws[i], c)
  {
    seq(|ws|, i requires 0 <= i < |ws| => if ws[i].id == id then Changed(ws[i], c) else ws[i])
  }

  /** A change keeps the ids, hence their uniqueness, and touches nothing
      when no window has the id. */
  lemma ApplyKeepsIds(ws: seq<WindowRecord>, id: string, c: Change)
    ensures UniqueIds(ws) ==> UniqueIds(Apply(ws, id, c))
    ensures Present(Apply(ws, id, c), id) <==> Present(ws, id)
    ensures !Present(ws, id) ==> Apply(ws, id, c) == ws
  {
    var r := Apply(ws, id, c);
    if Present(r, id) {
      var i :| 0 <= i < |r| && r[i].id == id;
      assert ws[i].id == id;
    }
    if Present(ws, id) {
      var i :| 0 <= i < |ws| && ws[i].id == id;
      assert r[i].id == id;
    }
  }

  /** Changes that leave `zIndex` alone keep the stacking invariant; raising or
      restoring with the counter's value puts the window on top, below the
      counter plus one. */
  lemma ApplyStacking(ws: seq<WindowRecord>, id: string, c: Change, next: int)
    requires UniqueIds(ws) && StackingBelow(ws, next)
    ensures !c.Raise? && !c.Restore? ==> StackingBelow(Apply(ws, id, c), next)
    ensures c == Raise(next) || c == Restore(next) ==>
      StackingBelow(Apply(ws, id, c), next + 1) && OnTop(Apply(ws, id, c), id)
  {
  }

  /** Every change is idempotent: applying it twice is applying it once. */
  lemma ApplyIdempotent(ws: seq<WindowRecord>, id: string, c: Change)
    ensures Apply(Apply(ws, id, c), id, c) == Apply(ws, id, c)
  {
    var r := Apply(ws, id, c);
    forall i | 0 <= i < |ws| && ws[i].id == id ensures Changed(r[i], c) == r[i] {
    }
  }

  /** Appending the record of an id not yet present to a registry that keeps
      its invariant keeps it, with the counter one higher, and the new window
      is on top. */
  lemma CreatedOnTop(ws: seq<WindowRecord>, d: Descriptor, next: int)
    requires UniqueIds(ws) && StackingBelow(ws, next) && !Present(ws, d.id)
    ensures var r := ws + [Created(d, CascadeStep * |ws|, next)];
      && UniqueIds(r) && StackingBelow(r, next + 1) && OnTop(r, d.id) && r[|ws|].id == d.id
      && r[|ws|].x == d.x + CascadeStep * |ws| && r[|ws|].y == d.y + CascadeStep * |ws|
  {
    var r := ws + [Created(d, CascadeStep * |ws|, next)];
    assert forall i :: 0 <= i < |ws| ==> r[i] == ws[i];
  }

  /** The store's removal by id: the windows whose id differs, in order. */
  function Without(ws: seq<WindowRecord>, id: string): (r: seq<WindowRecord>)
    ensures |r| <= |ws|
    ensures forall w :: w in r <==> w in ws && w.id != id
    ensures !Present(ws, id) ==> r == ws
  {
    if ws == [] then []
    else if ws[0].id == id then Without(ws[1..], id)
    else [ws[0]] + Without(ws[1..], id)
  }

  /** After removal no record carries the id. */
  lemma WithoutAbsent(ws: seq<WindowRecord>, id: string)
    ensures !Present(Without(ws, id), id)
  {
    var r := Without(ws, id);
    forall k | 0 <= k < |r| ensures r[k].id != id {
      assert r[k] in r;
    }
  }

  /** Dropping the first record keeps both invariants. */
  lemma TailKeepsInvariant(ws: seq<WindowRecord>, next: int)
    requires ws != [] && UniqueIds(ws) && StackingBelow(ws, next)
    ensures UniqueIds(ws[1..]) && StackingBelow(ws[1..], next)
  {
    var tail := ws[1..];
    forall i | 0 <= i < |tail| ensures tail[i] == ws[i + 1] { }
  }

  /** No later record shares the first record's id or stacking value. */
  lemma HeadDistinct(ws: seq<WindowRecord>, next: int)
    requires ws != [] && UniqueIds(ws) && StackingBelow(ws, next)
    ensures forall w :: w in ws[1..] ==> w.id != ws[0].id && w.zIndex != ws[0].zIndex
  {
    forall w | w in ws[1..] ensures w.id != ws[0].id && w.zIndex != ws[0].zIndex {
      var m :| 0 <= m < |ws[1..]| && ws[1..][m] == w;
      assert ws[1..][m] == ws[m + 1];
    }
  }

  /** Putting a record in front of a list keeps the invariants when it clashes with none. */
  lemma ConsKeepsInvariant(w: WindowRecord, rest: seq<WindowRecord>, next: int)
    requires UniqueIds(rest) && StackingBelow(rest, next) && w.zIndex < next
    requires forall v :: v in rest ==> v.id != w.id && v.zIndex != w.zIndex
    ensures UniqueIds([w] + rest) && StackingBelow([w] + rest, next)
  {
    var r := [w] + rest;
    forall k | 0 < k < |r| ensures r[k] == rest[k - 1] && r[k] in rest { }
  }

  /** Removing records keeps ids unique and stacking values distinct and below the counter. */
  lemma {:induction false} WithoutKeepsInvariant(ws: seq<WindowRecord>, id: string, next: int)
    requires UniqueIds(ws) && StackingBelow(ws, next)
    ensures UniqueIds(Without(ws, id)) && StackingBelow(Without(ws, id), next)
  {
    if ws != [] {
      TailKeepsInvariant(ws, next);
      WithoutKeepsInvariant(ws[1..], id, next);
      if ws[0].id != id {
        HeadDistinct(ws, next);
        ConsKeepsInvariant(ws[0], Without(ws[1..], id), next);
      }
    }
  }

  /** In a list with unique ids, removing a present id drops exactly its record
      and keeps the others in their order. */
  lemma {:induction false} WithoutRemovesOne(ws: seq<WindowRecord>, id: string, k: nat)
    requires UniqueIds(ws) && k < |ws| && ws[k].id == id
    ensures Without(ws, id) == ws[..k] + ws[k + 1..]
  {
    if k == 0 {
      assert !Present(ws[1..], id) by {
        forall j | 0 <= j < |ws[1..]| ensures ws[1..][j].id != id {
          assert ws[1..][j] == ws[j + 1];
        }
      }
      assert ws[k + 1..] == ws[1..];
    } else {
      TailUnique(ws);
      WithoutRemovesOne(ws[1..], id, k - 1);
      SliceAfterHead(ws, k);
    }
  }

  lemma TailUnique(ws: seq<WindowRecord>)
    requires ws != [] && UniqueIds(ws)
    ensures UniqueIds(ws[1..])
  {
    forall i, j | 0 <= i < j < |ws[1..]| ensures ws[1..][i].id != ws[1..][j].id {
      assert ws[1..][i] == ws[i + 1] && ws[1..][j] == ws[j + 1];
    }
  }

  lemma SliceAfterHead(ws: seq<WindowRecord>, k: nat)
    requires 0 < k < |ws|
    ensures [ws[0]] + (ws[1..][..k - 1] + ws[1..][k..]) == ws[..k] + ws[k + 1..]
  {
    assert ws[1..][..k - 1] == ws[1..k];
    assert ws[1..][k..] == ws[k + 1..];
    assert [ws[0]] + ws[1..k] == ws[..k];
  }

  /** The windows and the counter after opening `d`: a present id is raised
      (and restored, one value higher, when minimized), keeping the list;
      any other id is appended, cascaded and stacked at the counter. */
  function AfterOpen(ws: seq<WindowRecord>, next: int, d: Descriptor): (r: (seq<WindowRecord>, int))
    ensures next < r.1 <= next + 2
    ensures |r.0| == |ws| + (if Present(ws, d.id) then 0 else 1)
    ensures forall i :: 0 <= i < |ws| ==> r.0[i].id == ws[i].id
    ensures forall i :: 0 <= i < |ws| && ws[i].id != d.id ==> r.0[i] == ws[i]
    ensures !Present(ws, d.id) ==> r.0[|ws|] == Created(d, CascadeStep * |ws|, next) && r.1 == next + 1
    ensures Present(ws, d.id) ==>
      var k := IndexOf(ws, d.id).value;
      && r.1 == next + (if ws[k].isMinimized then 2 else 1)
      && r.0[k] == ws[k].(isMinimized := false,
                          isMaximized := ws[k].isMaximized && !ws[k].isMinimized,
                          zIndex := r.1 - 1)
  {
    match IndexOf(ws, d.id)
    case Some(k) =>
      if ws[k].isMinimized then (Apply(Apply(ws, d.id, Raise(next)), d.id, Restore(next + 1)), next + 2)
      else (Apply(ws, d.id, Raise(next)), next + 1)
    case None => (ws + [Created(d, CascadeStep * |ws|, next)], next + 1)
  }

  /** The window registry store. */
  class Registry {
    var windows: seq<WindowRecord>
    var activeWindowId: Option<string>
    var nextZIndex: int

    /** Ids are unique, stacking values are distinct and below the counter. */
    ghost predicate Valid()
      reads this
    {
      UniqueIds(windows) && StackingBelow(windows, nextZIndex)
    }

    constructor ()
      ensures Valid()
      ensures windows == [] && activeWindowId == None && nextZIndex == FirstZIndex
    {
      windows := [];
      activeWindowId := None;
      nextZIndex := FirstZIndex;
    }

    /** Opening an id already present focuses it (and restores it when it was
        minimized) and ignores the descriptor; any other id is appended,
        cascaded by 20 per open window, stacked on top and focused. */
    method OpenWindow(d: Descriptor)
      requires Valid()
      modifies this
      ensures Valid()
      ensures nextZIndex > old(nextZIndex)
      ensures activeWindowId == Some(d.id)
      ensures Present(windows, d.id) && OnTop(windows, d.id)
      ensures (windows, nextZIndex) == AfterOpen(old(windows), old(nextZIndex), d)
    {
      var found := IndexOf(windows, d.id);
      if found.Some? {
        var wasMinimized := windows[found.value].isMinimized;
        FocusWindow(d.id);
        if wasMinimized {
          RestoreWindow(d.id);
        }
        return;
      }
      var offset := |windows| * CascadeStep;
      var created := Created(d, offset, nextZIndex);
      windows := windows + [created];
      activeWindowId := Some(d.id);
      nextZIndex := nextZIndex + 1;
      assert windows[|windows| - 1] == created;
    }

    /** Removes the window's record; focus is cleared only when it named that id. */
    method CloseWindow(id: string)
      requires Valid()
      modifies this
      ensures Valid()
      ensures windows == Without(old(windows), id)
      ensures !Present(windows, id)
      ensures Present(old(windows), id) ==>
        var k := IndexOf(old(windows), id).value;
        windows == old(windows)[..k] + old(windows)[k + 1..]
      ensures activeWindowId == if old(activeWindowId) == Some(id) then None else old(activeWindowId)
      ensures nextZIndex == old(nextZIndex)
    {
      var ws := windows;
      WithoutKeepsInvariant(ws, id, nextZIndex);
      WithoutAbsent(ws, id);
      var found := IndexOf(ws, id);
      if found.Some? {
        WithoutRemovesOne(ws, id, found.value);
      }
      windows := Without(ws, id);
      if activeWindowId == Some(id) {
        activeWindowId := None;
      }
    }

    /** Sets only `isMinimized`; focus is cleared exactly when the window had it. */
    method MinimizeWindow(id: string)
      requires Valid()
      modifies this
      ensures Valid()
      ensures windows == Apply(old(windows), id, Minimize)
      ensures activeWindowId == if old(activeWindowId) == Some(id) then None else old(activeWindowId)
      ensures nextZIndex == old(nextZIndex)
    {
      windows := Apply(windows, id, Minimize);
      if activeWindowId == Some(id) {
        activeWindowId := None;
      }
    }

    /** Sets only `isMaximized`: geometry, stacking and focus stay as they were. */
    method MaximizeWindow(id: string)
      requires Valid()
      modifies this
      ensures Valid()
      ensures windows == Apply(old(windows), id, Maximize)
      ensures activeWindowId == old(activeWindowId) && nextZIndex == old(nextZIndex)
    {
      windows := Apply(windows, id, Maximize);
    }

    /** Clears both flags, stacks the window on top and focuses the id, which
        is recorded as focused even when no window has it. */
    method RestoreWindow(id: string)
      requires Valid()
      modifies this
      ensures Valid()
      ensures windows == Apply(old(windows), id, Restore(old(nextZIndex)))
      ensures activeWindowId == Some(id) && nextZIndex == old(nextZIndex) + 1
      ensures OnTop(windows, id)
    {
      var z := nextZIndex;
      windows := Apply(windows, id, Restore(z));
      activeWindowId := Some(id);
      nextZIndex := z + 1;
    }

    /** Stacks the window on top and focuses the id, which is recorded as
        focused even when no window has it; the flags stay as they were. */
    method FocusWindow(id: string)
      requires Valid()
      modifies this
      ensures Valid()
      ensures windows == Apply(old(windows), id, Raise(old(nextZIndex)))
      ensures activeWindowId == Some(id) && nextZIndex == old(nextZIndex) + 1
      ensures OnTop(windows, id)
    {
      var z := nextZIndex;
      windows := Apply(windows, id, Raise(z));
      activeWindowId := Some(id);
      nextZIndex := z + 1;
    }

    /** Overwrites the position, without any clamping. */
    method UpdateWindowPosition(id: string, x: int, y: int)
      requires Valid()
      modifies this
      ensures Valid()
      ensures windows == Apply(old(windows), id, Move(x, y))
      ensures activeWindowId == old(activeWindowId) && nextZIndex == old(nextZIndex)
    {
      windows := Apply(windows, id, Move(x, y));
    }

    /** Stores the size floored at the window's own minimums; never rejects. */
    method UpdateWindowSize(id: string, width: int, height: int)
      requires Valid()
      modifies this
      ensures Valid()
      ensures windows == Apply(old(windows), id, Resize(width, height))
      ensures forall i :: 0 <= i < |windows| && windows[i].id == id ==>
        windows[i].width >= windows[i].minWidth && windows[i].height >= windows[i].minHeight
      ensures activeWindowId == old(activeWindowId) && nextZIndex == old(nextZIndex)
    {
      windows := Apply(windows, id, Resize(width, height));
    }
  }

  /** Lookup of a present window. */
  function Lookup(ws: seq<WindowRecord>, id: string): (w: WindowRecord)
    requires Present(ws, id)
    ensures w in ws && w.id == id
  {
    ws[IndexOf(ws, id).value]
  }

  /** Maximizing and then restoring a window gives back its exact geometry. */
  lemma MaximizeThenRestore(w: WindowRecord, z: int)
    ensures var r := Changed(Changed(w, Maximize), Restore(z));
      && r.x == w.x && r.y == w.y && r.width == w.width && r.height == w.height
      && !r.isMaximized && !r.isMinimized && r.zIndex == z
  {
  }

  /** The end-to-end scenario of the design: a note window shrunk below its
      minimums is floored at them, and survives a maximize and a restore with
      its position and size. */
  method ShrinkMaximizeRestoreScenario() returns (w: WindowRecord)
    ensures w.x == 100 && w.y == 100 && w.width == 150 && w.height == 100
    ensures !w.isMaximized && !w.isMinimized
  {
    var reg := new Registry();
    reg.OpenWindow(Descriptor("notepad", "Notepad", "", 100, 100, 300, 200, 150, 100, false, false, "Notepad", NoProps));
    assert reg.windows == [Created(Descriptor("notepad", "Notepad", "", 100, 100, 300, 200, 150, 100, false, false, "Notepad", NoProps), 0, 100)];
    reg.UpdateWindowSize("notepad", 50, 50);
    reg.MaximizeWindow("notepad");
    reg.RestoreWindow("notepad");
    w := reg.windows[0];
  }
}

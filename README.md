# Retro desktop shell — a verified model

This project models the core of a portfolio web site dressed up as a 1990s
desktop:

- **Window manager.** A window registry keeps the open windows in order, the active window and the next stacking number. Each window frame handles drag, resize, maximize and menus. The taskbar has one button per window.
- **Desktop.** The desktop routes icon double-clicks, Start-menu entries and file opens to new windows. It keeps a per-window back history for the file explorer.
- **Applications.** Minesweeper, Klondike Solitaire, a small web browser with back/forward history, the picture viewer's zoom, the display-settings dialog and the newsletter sign-up form.
- **Stored flags.** The desktop store holds the saved wallpaper and the UI flags.

Each source file is one Dafny module:

- state that the source updates in place is a `class` with `modifies` frames;
- pure logic is functions and lemmas;
- every class method states in its `ensures` the new value of each field it may change, including the window registry's focus and stacking counter wherever it may change the registry, through a specification function wherever the source does more than assign a field (`AfterOpen`, `Moved`, `Draw`, `Step`, ...), and the lemmas are proved about those functions.

| module | file | models |
|---|---|---|
| `Wrappers` | wrappers.dfy | `Option` |
| `Numerals` | numerals.dfy | decimal digits and zero padding used by the two game counters |
| `WindowManager` | window_manager.dfy | `client/src/lib/windowManager.ts` |
| `WindowChrome` | window_chrome.dfy | `client/src/components/win95/Win95Window.tsx` |
| `Taskbar` | taskbar.dfy | `client/src/components/win95/Taskbar.tsx` |
| `FileExplorer` | file_explorer.dfy | `client/src/components/win95/FileExplorer.tsx` |
| `Desktop` | desktop.dfy | `client/src/components/win95/Desktop.tsx` |
| `Minesweeper` | minesweeper.dfy | `client/src/components/win95/Minesweeper.tsx` |
| `Solitaire` | solitaire.dfy | `client/src/components/win95/Solitaire.tsx` |
| `InternetExplorer` | internet_explorer.dfy | `client/src/components/win95/InternetExplorer.tsx` |
| `ImageViewer` | image_viewer.dfy | `client/src/components/win95/ImageViewer.tsx` |
| `DesktopStore` | desktop_store.dfy | `client/src/lib/desktopStore.ts` |
| `DisplaySettings` | display_settings.dfy | `client/src/components/win95/DisplaySettings.tsx` |
| `Newsletter` | newsletter.dfy | `client/src/components/win95/NewsletterDialog.tsx` |

## What the model does differently

- **Random numbers.** Minesweeper's mine positions come in as the sequence of draws `draws`. The Solitaire shuffle's swap indices do too.
- **Timers.** The one-second timers are `Tick` methods.
- **Browser calls.** `window.open` and `alert` become values of `Desktop.Effect`.
- **Window props.** The loosely typed props bag becomes a tagged union (`WindowManager.Props`).
- **File contents.** The Notepad texts and picture addresses are maps passed to the desktop: `texts` and `images`. An id missing from them gives the empty string, just as the lookup gives `undefined`, and the component then shows nothing.
- **The Back button's title.** Going back in an explorer window titles it with the last part of the previous path. When that part is empty, the title is the literal `Explorer`, not the window's old title. So going back to the drive root `C:\` gives a window titled `Explorer` (`Desktop.DriveRootTitle`).

## Model

| member | source | states |
|---|---|---|
| WindowManager.CreatedOnTop | client/src/lib/windowManager.ts:51-63 | appending a new id's record keeps ids unique and stacking values distinct below the counter plus one; the new window is on top and shifted by 20 per window already open |
| WindowManager.IndexOf | client/src/lib/windowManager.ts:41 | returns the first window with the id, or none when no window has it |
| WindowManager.Changed | client/src/lib/windowManager.ts:73-126 | each change touches only its own fields: identity, title, props and minimums are kept; a resize takes each requested dimension when it is at least the minimum, and the minimum otherwise; raise and restore set the stacking value; restore clears both flags |
| WindowManager.Apply | client/src/lib/windowManager.ts:73-126 | the update by id keeps the length and every id, leaves other windows alone, and applies the change to the windows with the id |
| WindowManager.ApplyKeepsIds | client/src/lib/windowManager.ts:73-126 | an update keeps ids unique and keeps which ids are present; an absent id changes nothing |
| WindowManager.ApplyStacking | client/src/lib/windowManager.ts:73-126 | changes that do not restack keep the stacking invariant; raising or restoring to the counter puts the window strictly on top |
| WindowManager.ApplyIdempotent | client/src/lib/windowManager.ts:73-126 | every update applied twice is the same as applied once |
| WindowManager.AfterOpen | client/src/lib/windowManager.ts:39-64 | a present id keeps the list and its order; its window keeps its geometry, is no longer minimized, stays maximized only if it was not minimized, and takes the last stacking value used, with the counter stepping by 2 when it was minimized and by 1 otherwise; any other id adds exactly one record, cascaded and stacked at the counter, which steps by 1; other windows are untouched |
| WindowManager.Without | client/src/lib/windowManager.ts:66-71 | the filter by id keeps exactly the windows whose id differs, and is the identity when the id is absent |
| WindowManager.WithoutAbsent | client/src/lib/windowManager.ts:66-71 | after closing, no window has the id |
| WindowManager.WithoutKeepsInvariant | client/src/lib/windowManager.ts:66-71 | closing keeps ids unique and every stacking number below the next one |
| WindowManager.WithoutRemovesOne | client/src/lib/windowManager.ts:66-71 | with unique ids, closing removes exactly the one window at its index and keeps the order of the rest |
| WindowManager.Registry.constructor | client/src/lib/windowManager.ts:35-37 | no windows, none active, next stacking number 100 |
| WindowManager.Registry.OpenWindow | client/src/lib/windowManager.ts:39-64 | the new windows and counter are AfterOpen's: an open window is raised, and also restored (both flags cleared) when minimized, using one or two stacking numbers; a new one is appended, cascaded by 20 per open window, and on top; either way it becomes active |
| WindowManager.Registry.CloseWindow | client/src/lib/windowManager.ts:66-71 | removes the window, keeps the others in order, and clears the active id only when it was this window |
| WindowManager.Registry.MinimizeWindow | client/src/lib/windowManager.ts:73-80 | sets the minimized flag and clears the active id only when it was this window |
| WindowManager.Registry.MaximizeWindow | client/src/lib/windowManager.ts:82-88 | sets the maximized flag and changes nothing else |
| WindowManager.Registry.RestoreWindow | client/src/lib/windowManager.ts:90-99 | clears both flags, raises the window on top and makes it active |
| WindowManager.Registry.FocusWindow | client/src/lib/windowManager.ts:101-110 | raises the window to the top and makes it active |
| WindowManager.Registry.UpdateWindowPosition | client/src/lib/windowManager.ts:112-118 | moves the window and nothing else |
| WindowManager.Registry.UpdateWindowSize | client/src/lib/windowManager.ts:120-126 | sets the size clamped below by the minimum size |
| WindowManager.Lookup | client/src/lib/windowManager.ts:41 | the window found is in the list and has the id |
| WindowManager.MaximizeThenRestore | client/src/lib/windowManager.ts:82-99 | maximizing and then restoring gives back the geometry and clears both flags |
| WindowManager.ShrinkMaximizeRestoreScenario | client/src/lib/windowManager.ts:82-126 | a size request below the minimum is clamped, and the clamped geometry survives maximize and restore |
| WindowChrome.DragPosition | client/src/components/win95/Win95Window.tsx:170-174 | the dragged window keeps the grab offset horizontally; vertically it follows the pointer but never goes above 0 |
| WindowChrome.DragBackToGrabPoint | client/src/components/win95/Win95Window.tsx:170-174 | moving the pointer back to the grab point puts the window back where it was |
| WindowChrome.ResizeRect | client/src/components/win95/Win95Window.tsx:175-205 | a west or north handle pins the opposite edge to the old one; an east or south handle moves that edge to the pointer; otherwise that axis is unchanged |
| WindowChrome.ProposeResize | client/src/components/win95/Win95Window.tsx:175-205 | the handler's edge arithmetic yields exactly the proposed rectangle: edges named by the handle follow the pointer, opposite edges stay |
| WindowChrome.AfterResizeGeometry | client/src/components/win95/Win95Window.tsx:175-205 | the new rectangle is applied only when it fits the minimum size; otherwise the window is unchanged |
| WindowChrome.PlacementOf | client/src/components/win95/Win95Window.tsx:251-255 | a minimized window is not shown; a maximized one fills the desktop; any other is placed at its geometry |
| WindowChrome.MaximizedIgnoresGeometry | client/src/components/win95/Win95Window.tsx:253-255 | a maximized window's placement does not depend on its stored geometry |
| WindowChrome.Frame.constructor | client/src/components/win95/Win95Window.tsx:159-163 | no gesture in progress and no menu open |
| WindowChrome.Frame.TitleMouseDown | client/src/components/win95/Win95Window.tsx:224-233 | a maximized window ignores it; otherwise the window is focused and a drag starts with the grab offset |
| WindowChrome.Frame.ResizeMouseDown | client/src/components/win95/Win95Window.tsx:235-241 | focuses the window and starts a resize in the given direction |
| WindowChrome.Frame.MouseMove | client/src/components/win95/Win95Window.tsx:169-206 | while dragging, the window moves to the drag position; while resizing, the resize is applied; neither happens when maximized |
| WindowChrome.Frame.DragStep | client/src/components/win95/Win95Window.tsx:170-174 | while dragging a window that is not maximized, it moves to the drag position; otherwise the windows are kept; focus and counter kept |
| WindowChrome.Frame.ResizeStep | client/src/components/win95/Win95Window.tsx:175-205 | while resizing a window that is not maximized, the geometry proposed from the window as it was is applied whole when it fits the minimums; otherwise the windows are kept; focus and counter kept |
| WindowChrome.OneTitleActive | client/src/components/win95/Win95Window.tsx:166 | with unique ids, at most one window's title bar is drawn active |
| WindowChrome.Frame.MouseUp | client/src/components/win95/Win95Window.tsx:208-211 | ends both gestures |
| WindowChrome.Frame.ToggleMaximize | client/src/components/win95/Win95Window.tsx:243-249 | a maximized window is restored, and any other is maximized; either way the flag flips |
| WindowChrome.Frame.MenuClick | client/src/components/win95/Win95Window.tsx:314 | clicking the open menu closes it; clicking another opens that one |
| WindowChrome.Frame.MenuItemClick | client/src/components/win95/Win95Window.tsx:324 | closes the menu |
| WindowChrome.Frame.MinimizeClick | client/src/components/win95/Win95Window.tsx:289 | minimizes this window, clears the active id only when it was this window, and keeps the counter |
| WindowChrome.Frame.CloseClick | client/src/components/win95/Win95Window.tsx:301 | removes this window, clears the active id only when it was this window, and keeps the counter |
| WindowChrome.Frame.WindowClick | client/src/components/win95/Win95Window.tsx:262 | focuses this window, which ends up on top with the counter one higher |
| Taskbar.ClickAction | client/src/components/win95/Taskbar.tsx:88-99 | each of the four outcomes holds exactly when its condition holds: absent, minimized, active, other |
| Taskbar.ButtonFor | client/src/components/win95/Taskbar.tsx:131-139 | a button shows its window's icon and title, and is pressed exactly when that window is active and not minimized |
| Taskbar.Buttons | client/src/components/win95/Taskbar.tsx:130-140 | one button per window, in window order, each the button of its window |
| Taskbar.AtMostOnePressed | client/src/components/win95/Taskbar.tsx:133 | with unique ids, at most one button is pressed, and a pressed button belongs to the active window |
| Taskbar.PressedIffFocusedVisible | client/src/components/win95/Taskbar.tsx:130-140 | some button is pressed exactly when the active id names an open window that is not minimized |
| Taskbar.WindowButtonClick | client/src/components/win95/Taskbar.tsx:88-99 | performs exactly the registry call that the click's outcome names; restoring and focusing raise the counter by one, minimizing keeps it |
| Taskbar.TwoClicksOnFocused | client/src/components/win95/Taskbar.tsx:92-95 | clicking the focused window's button minimizes it, and a second click restores it |
| FileExplorer.Split | client/src/components/win95/Desktop.tsx:490 | the backslash split returns at least one part, and no part contains a backslash |
| FileExplorer.TitleFor | client/src/components/win95/Desktop.tsx:490 | the title is the last path part, or the fallback when that part is empty |
| FileExplorer.SplitJoinRoundTrip | client/src/components/win95/Desktop.tsx:490 | joining the parts of a split gives back the path |
| FileExplorer.JoinPathSplit | client/src/components/win95/FileExplorer.tsx:105 | entering a folder adds exactly one path part, and it is the folder's name |
| FileExplorer.DoubleClick | client/src/components/win95/FileExplorer.tsx:103-108 | navigates exactly when the item is a folder with children, and into those children; otherwise opens the item |
| FileExplorer.EnteredFolderTitle | client/src/components/win95/FileExplorer.tsx:103-108 | the window opened for an entered folder is titled with the folder's name |
| FileExplorer.NavButtons | client/src/components/win95/FileExplorer.tsx:116-121 | Back is enabled exactly when the host says the window can go back; Forward is never enabled |
| FileExplorer.Explorer.Click | client/src/components/win95/FileExplorer.tsx:101 | a click selects that one item |
| Desktop.WindowIdsDistinct | client/src/components/win95/Desktop.tsx:293-362 | distinct text files get distinct Notepad windows and distinct pictures distinct viewer windows; a Notepad, a viewer and a game window never share an id |
| Desktop.DescriptorsFitMinimums | client/src/components/win95/Desktop.tsx:293-362 | every window the desktop opens, from a file, the Start menu or an icon, starts at least as large as its own minimum size |
| Desktop.FileOpen | client/src/components/win95/Desktop.tsx:432-457 | only files open windows; picture-prefixed ids open the viewer, the two game ids open games, other files open Notepad; the newsletter shortcut shows the form, the known shortcuts open their addresses, anything else does nothing |
| Desktop.PhotosOpenPictures | client/src/components/win95/Desktop.tsx:65-71 | every file in the Photos folder opens in the picture viewer |
| Desktop.GamesOpenGames | client/src/components/win95/Desktop.tsx:79-82 | every file in the Games folder opens its game |
| Desktop.StartMenuClick | client/src/components/win95/Desktop.tsx:263-291 | only the shut-down entry alerts; exactly the unnamed entries do nothing; no entry shows the form or leaves the site; the game entries open their games |
| Desktop.ProjectNumberOf | client/src/components/win95/Desktop.tsx:282-284 | stripping the prefix and suffix from a project menu id leaves the project's number |
| Desktop.ProjectMenus | client/src/components/win95/Desktop.tsx:281-285 | each project entry opens that project's description in Notepad |
| Desktop.ProjectEntry | client/src/components/win95/Desktop.tsx:281-285 | project ids are routed to the project branch |
| Desktop.UnlistedStartEntries | client/src/components/win95/Desktop.tsx:263-291 | the submenu and placeholder entries do nothing |
| Desktop.ResumeSameWindow | client/src/components/win95/Desktop.tsx:274-276 | the Start-menu résumé opens the same window as the My Computer file |
| Desktop.FindIcon | client/src/components/win95/Desktop.tsx:399 | finds an icon with the id, or none when no icon has it |
| Desktop.IconEffect | client/src/components/win95/Desktop.tsx:402-429 | an icon with an address opens it, and only such a one does; the newsletter component shows the form |
| Desktop.IconDoubleClick | client/src/components/win95/Desktop.tsx:398-430 | an unknown id does nothing; a known one acts as its icon |
| Desktop.DesktopIconsAct | client/src/components/win95/Desktop.tsx:26-37 | every shipped icon does something: external exactly for the address icons, windows named after the icon, the form only for the newsletter |
| Desktop.HistoryOf | client/src/components/win95/Desktop.tsx:486 | a window without an entry has the empty history |
| Desktop.Pushed | client/src/components/win95/Desktop.tsx:486-488 | recording a place appends it to that window's history alone, and the window can then go back |
| Desktop.Latest | client/src/components/win95/Desktop.tsx:494-496 | the place popped is one the window recorded |
| Desktop.Popped | client/src/components/win95/Desktop.tsx:494-497 | popping takes off exactly the latest place of that window and leaves the other windows alone |
| Desktop.PushThenPop | client/src/components/win95/Desktop.tsx:486-500 | popping returns what was pushed and leaves the history as it was |
| Desktop.PushKeepsOthers | client/src/components/win95/Desktop.tsx:486-500 | pushing or popping one window's history leaves the other windows' histories alone |
| Desktop.NavigatedWindow | client/src/components/win95/Desktop.tsx:489-490 | the reopened window keeps its id and icon, shows the new path and items, and is titled with the path's last part or else its old title |
| Desktop.BackWindow | client/src/components/win95/Desktop.tsx:498-500 | the reopened window keeps its id and icon, shows the previous path and items, and is titled with the path's last part or else `Explorer` |
| Desktop.NavigateThenBack | client/src/components/win95/Desktop.tsx:485-503 | navigating and then going back gives a window with the same id and the old path and files |
| Desktop.DriveRootTitle | client/src/components/win95/Desktop.tsx:500 | going back to the drive root gives the title `Explorer` |
| Desktop.Shell.constructor | client/src/components/win95/Desktop.tsx:195-196 | the newsletter is hidden, and there are no histories |
| Desktop.Shell.CloseNewsletter | client/src/components/win95/Desktop.tsx:573 | closing the dialog hides it and leaves the histories alone |
| Desktop.Shell.Perform | client/src/components/win95/Desktop.tsx:293-396 | an Open effect leaves the windows and counter exactly as opening its descriptor does, with that window active and on top; the newsletter flag is set only by ShowNewsletter; other effects leave the windows, focus and counter alone |
| Desktop.Shell.HandleFileOpen | client/src/components/win95/Desktop.tsx:432-457 | performs the file routing's effect, with the whole new state as Perform states it; only files change the windows |
| Desktop.Shell.HandleStartMenuClick | client/src/components/win95/Desktop.tsx:263-291 | performs the Start-menu routing's effect, with the whole new state as Perform states it; the newsletter flag is kept |
| Desktop.Shell.HandleIconDoubleClick | client/src/components/win95/Desktop.tsx:398-430 | performs the icon's effect, with the whole new state as Perform states it; external and unknown icons leave the windows alone |
| Desktop.Shell.OnNavigate | client/src/components/win95/Desktop.tsx:485-491 | pushes the current place, then reopens the window at the end of the list with the new path, title and files, using one stacking value; the count stays the same |
| Desktop.Shell.OnBack | client/src/components/win95/Desktop.tsx:493-503 | with no history it does nothing; otherwise it pops the latest place and reopens the window there, using one stacking value |
| Desktop.ReopenKeepsCount | client/src/components/win95/Desktop.tsx:489-490 | closing and reopening a present window keeps the count, and the closed id is gone in between |
| Minesweeper.PresetOf | client/src/components/win95/Minesweeper.tsx:14-18 | each preset leaves room for the mines outside the first click's 3×3 block |
| Minesweeper.AdjCountZero | client/src/components/win95/Minesweeper.tsx:75-90 | the neighbour count is zero exactly when no mine is adjacent |
| Minesweeper.ValidCountsZeroSafe | client/src/components/win95/Minesweeper.tsx:75-90 | correct counts make every zero cell's neighbours safe |
| Minesweeper.LayMines | client/src/components/win95/Minesweeper.tsx:61-74 | adds exactly `mines` new mines, none in the first click's block, and changes nothing else |
| Minesweeper.CountAdjacent | client/src/components/win95/Minesweeper.tsx:75-90 | every safe cell holds its true neighbour count; mines keep theirs |
| Minesweeper.CountAround | client/src/components/win95/Minesweeper.tsx:78-87 | the loop counts the mines in the 3×3 block |
| Minesweeper.PlaceMines | client/src/components/win95/Minesweeper.tsx:61-93 | the shape and the reveal and flag marks are kept; exactly `mines` new mines, none next to the click; counts correct |
| Minesweeper.RevealCell | client/src/components/win95/Minesweeper.tsx:95-108 | a flood: reveals only safe cells, includes the clicked cell unless flagged, opens every neighbour of a revealed zero, and opens only cells reached from the click through revealed zeros; a numbered cell opens alone; an off-board, open or flagged cell changes nothing |
| Minesweeper.FloodDeterminate | client/src/components/win95/Minesweeper.tsx:95-108 | the flood's contract fixes its result: two boards meeting it from the same board and cell are equal |
| Minesweeper.NumberedOpensOne | client/src/components/win95/Minesweeper.tsx:99-101 | a flood from a numbered cell opens that cell alone |
| Minesweeper.FirstClickBoard | client/src/components/win95/Minesweeper.tsx:125-128 | on an empty board, the first click's board has exactly the preset's mines, none next to the clicked cell (so that cell is safe), correct counts, and the same reveals and flags |
| Minesweeper.LoseAt | client/src/components/win95/Minesweeper.tsx:131-142 | a click on a mine reveals exactly the mines and keeps flags, mines and counts |
| Minesweeper.OpenAt | client/src/components/win95/Minesweeper.tsx:145-150 | the flood from a safe cell reveals it, opens only cells reached from it, keeps flags, mines and counts, and reports won exactly when every safe cell is open |
| Minesweeper.CheckWin | client/src/components/win95/Minesweeper.tsx:110-119 | won exactly when every safe cell is revealed |
| Minesweeper.RevealAllMines | client/src/components/win95/Minesweeper.tsx:131-142 | reveals exactly the mines |
| Minesweeper.Toggled | client/src/components/win95/Minesweeper.tsx:157-158 | a toggle flips that cell's flag and changes nothing else on the board |
| Minesweeper.ToggleTwice | client/src/components/win95/Minesweeper.tsx:153-161 | flagging twice restores the grid |
| Minesweeper.FlagSetToggle | client/src/components/win95/Minesweeper.tsx:153-161 | a toggle adds or removes exactly that cell from the flags |
| Minesweeper.ToggleKeeps | client/src/components/win95/Minesweeper.tsx:153-161 | a toggle keeps the shape, mines and counts, and changes the flag count by one |
| Minesweeper.NewGridEmpty | client/src/components/win95/Minesweeper.tsx:33-47 | a new grid has the given shape, every cell covered, no mines, no flags and (trivially) correct counts |
| Minesweeper.FloodFromSameReveals | client/src/components/win95/Minesweeper.tsx:95-108 | a flood result depends only on which cells were revealed |
| Minesweeper.ReachedSameReveals | client/src/components/win95/Minesweeper.tsx:95-108 | so does the set of cells reached from the click |
| Minesweeper.Clamp | client/src/components/win95/Minesweeper.tsx:170 | counter values are clamped to 0..999 |
| Minesweeper.FormatNumber | client/src/components/win95/Minesweeper.tsx:170 | the counter text is three digits |
| Minesweeper.FormatNumberValue | client/src/components/win95/Minesweeper.tsx:170 | the three digits read back as the clamped value |
| Minesweeper.Game.constructor | client/src/components/win95/Minesweeper.tsx:23-28 | beginner preset, fresh grid, playing, time 0, first click pending |
| Minesweeper.Game.NewGame | client/src/components/win95/Minesweeper.tsx:49-51 | a fresh grid for the current preset; playing, time 0, first click pending |
| Minesweeper.Game.SetDifficulty | client/src/components/win95/Minesweeper.tsx:180 | choosing the current preset changes nothing; another preset starts a new game of it |
| Minesweeper.Game.Tick | client/src/components/win95/Minesweeper.tsx:53-59 | the time goes up by one, capped at 999, only while playing after the first click |
| Minesweeper.Game.RightClick | client/src/components/win95/Minesweeper.tsx:153-161 | a covered cell's flag is toggled and the mine counter moves the other way; otherwise nothing changes |
| Minesweeper.Game.CellClick | client/src/components/win95/Minesweeper.tsx:121-151 | ignored unless playing on a covered, unflagged cell; the first click lays mines away from it; a mine loses and shows all mines; otherwise a flood reveal that opens only cells reached from the click, and the win check sets won exactly when all safe cells are open |
| Solitaire.StandardDeck | client/src/components/win95/Solitaire.tsx:13-21 | 52 cards |
| Solitaire.StandardDeckContents | client/src/components/win95/Solitaire.tsx:13-21 | every suit and value 1..13 once each, all face down |
| Solitaire.CreateDeck | client/src/components/win95/Solitaire.tsx:13-21 | the loops build the standard deck |
| Solitaire.ShuffleDeck | client/src/components/win95/Solitaire.tsx:23-30 | the swap loop returns a permutation of the deck |
| Solitaire.DealIndex | client/src/components/win95/Solitaire.tsx:47-54 | the deal order puts row r, pile j within row r's block of the first 28 cards |
| Solitaire.DealIndexInjective | client/src/components/win95/Solitaire.tsx:47-54 | no two slots take the same card |
| Solitaire.SlotOf | client/src/components/win95/Solitaire.tsx:47-54 | every one of the first 28 cards goes to some slot |
| Solitaire.Deal | client/src/components/win95/Solitaire.tsx:45-57 | pile j gets j+1 cards in deal order with only the last face up; the other 24 form the stock |
| Solitaire.Draw | client/src/components/win95/Solitaire.tsx:80-90 | drawing moves the top stock card face up onto the waste; an empty stock takes the waste back face down |
| Solitaire.DrawKeepsCards | client/src/components/win95/Solitaire.tsx:80-90 | drawing keeps the multiset of cards |
| Solitaire.DrawRun | client/src/components/win95/Solitaire.tsx:80-90 | k draws move the top k stock cards, reversed and face up, onto the waste |
| Solitaire.RecycleUndoes | client/src/components/win95/Solitaire.tsx:82-84 | recycling a fully drawn stock restores it |
| Solitaire.DrawAllThenRecycle | client/src/components/win95/Solitaire.tsx:80-90 | drawing the whole stock and then once more gives back the starting stock and an empty waste |
| Solitaire.CanPlaceOnFoundation | client/src/components/win95/Solitaire.tsx:92-99 | the foundation rule as the source writes it: an ace on an empty foundation, else the same suit one higher (its meaning is FoundationGrows) |
| Solitaire.FoundationGrows | client/src/components/win95/Solitaire.tsx:92-99 | a card is accepted on a foundation exactly when the foundation stays one suit, rising by one from the ace |
| Solitaire.CanPlaceOnTableau | client/src/components/win95/Solitaire.tsx:101-109 | the tableau rule as the source writes it: a king on an empty pile, else the other colour one lower (its meaning is TableauGrows) |
| Solitaire.TableauGrows | client/src/components/win95/Solitaire.tsx:101-109 | a run is accepted on a non-empty pile exactly when the pile's top card and the run form one run alternating in colour and descending |
| Solitaire.DropLast | client/src/components/win95/Solitaire.tsx:139 | for 0 < k <= length, the kept prefix followed by the last k cards is the pile; for k = 0 (the end index -0 is 0) or k past the length, nothing is kept |
| Solitaire.TurnUpLast | client/src/components/win95/Solitaire.tsx:140-142 | the pile keeps its length and every card but the last; the last card ends face up |
| Solitaire.Moved | client/src/components/win95/Solitaire.tsx:132-162 | the corrected move keeps the layout well formed |
| Solitaire.MoveConserves | client/src/components/win95/Solitaire.tsx:132-162 | the corrected move keeps the multiset of cards |
| Solitaire.MovedFrame | client/src/components/win95/Solitaire.tsx:132-162 | every pile and foundation other than the source and the target, and the waste unless it is the source, is unchanged; a waste or foundation source loses exactly its top card |
| Solitaire.MovedTarget | client/src/components/win95/Solitaire.tsx:153-161 | the moved cards end up at the end of the target; a target other than the source is its old pile followed by the cards |
| Solitaire.MovedSource | client/src/components/win95/Solitaire.tsx:137-145 | the source pile loses exactly the moved cards, and its new last card is face up |
| Solitaire.MovedAsWritten | client/src/components/win95/Solitaire.tsx:132-162 | as written, a move between two tableau piles or two foundations leaves the source tableau pile as it was except that its newly exposed card turns face up (a source foundation stays as it was), while the target gains the cards and every other pile, foundation and the waste are untouched; every other move is the corrected one |
| Solitaire.SameKindMoveDuplicates | client/src/components/win95/Solitaire.tsx:143-145 | as written, a king moved between tableau piles stays on the old pile too |
| Solitaire.TargetOf | client/src/components/win95/Solitaire.tsx:111-130 | a clicked pile names the matching target |
| Solitaire.LegalMoveKeepsFoundations | client/src/components/win95/Solitaire.tsx:111-130 | a move made by a click keeps every foundation ascending |
| Solitaire.FirstFoundation | client/src/components/win95/Solitaire.tsx:172-179 | finds the first foundation that accepts the card, or none when none does |
| Solitaire.ClockValue | client/src/components/win95/Solitaire.tsx:183-187 | the clock text reads back as the minutes and the two-digit seconds |
| Solitaire.FormatTime | client/src/components/win95/Solitaire.tsx:183-187 | minutes, a colon and two digits of seconds; the minutes read back as the whole minutes and the seconds as the remainder below 60, so together they give the number of seconds; the minutes are the unpadded decimal numeral, so the text has no leading zero unless it is `0:ss` |
| Solitaire.Game.constructor | client/src/components/win95/Solitaire.tsx:33-66 | the game dealt on mount: a shuffled standard deck dealt to the tableau and stock, empty waste and foundations, playing, no moves, time 0 |
| Solitaire.Game.InitializeGame | client/src/components/win95/Solitaire.tsx:42-62 | deals a shuffled standard deck; empty waste and foundations; counters reset |
| Solitaire.Game.DrawFromStock | client/src/components/win95/Solitaire.tsx:80-90 | applies Draw and counts a move |
| Solitaire.Game.MoveCards | client/src/components/win95/Solitaire.tsx:132-163 | applies the corrected move and counts it |
| Solitaire.Game.HandleCardClick | client/src/components/win95/Solitaire.tsx:111-130 | with nothing selected, selects a face-up run; with a selection, makes the corrected move when the target accepts it; the selection is then cleared |
| Solitaire.Game.HandleDoubleClick | client/src/components/win95/Solitaire.tsx:172-179 | moves the card to the first accepting foundation, if any |
| Solitaire.Game.WinCheck | client/src/components/win95/Solitaire.tsx:164-168 | sets won exactly when the captured foundations are complete |
| Solitaire.Game.Tick | client/src/components/win95/Solitaire.tsx:68-74 | a second is counted only while playing |
| InternetExplorer.ShippedIdsDistinct | client/src/components/win95/InternetExplorer.tsx:12-62 | the shipped post ids are distinct and none is `home` |
| InternetExplorer.FindPost | client/src/components/win95/InternetExplorer.tsx:77 | finds the first post with the id, or none when no post has it |
| InternetExplorer.FindListedPost | client/src/components/win95/InternetExplorer.tsx:77 | with unique ids, a listed post is found by its id |
| InternetExplorer.Back | client/src/components/win95/InternetExplorer.tsx:70-81 | back keeps the history and its well-formedness, moves exactly when the button is enabled, and then one entry back |
| InternetExplorer.Forward | client/src/components/win95/InternetExplorer.tsx:83-94 | forward keeps the history and its well-formedness, moves exactly when the button is enabled, and then one entry forward |
| InternetExplorer.Push | client/src/components/win95/InternetExplorer.tsx:96-110 | navigating keeps the entries up to the current one, drops the rest, and makes the new entry the last and current one, so forward is disabled |
| InternetExplorer.BackForward | client/src/components/win95/InternetExplorer.tsx:70-94 | back then forward, and forward then back, return to the start |
| InternetExplorer.PushThenBackForward | client/src/components/win95/InternetExplorer.tsx:96-110 | a push drops the forward entries, lands on the new entry, and back then forward returns to it |
| InternetExplorer.Browser.constructor | client/src/components/win95/InternetExplorer.tsx:65-68 | the home address, no post, history `["home"]` at position 0 |
| InternetExplorer.Browser.GoBack | client/src/components/win95/InternetExplorer.tsx:70-81 | steps back when possible, and then shows the entry's post (none for home); the address is unchanged |
| InternetExplorer.Browser.GoForward | client/src/components/win95/InternetExplorer.tsx:83-94 | steps forward when possible, and then shows the entry's post; the address is unchanged |
| InternetExplorer.Browser.OpenPost | client/src/components/win95/InternetExplorer.tsx:96-102 | pushes the post's id, shows the post, and sets its address |
| InternetExplorer.Browser.GoHome | client/src/components/win95/InternetExplorer.tsx:104-110 | pushes `home`, shows no post, and sets the home address |
| ImageViewer.ZoomedIn | client/src/components/win95/ImageViewer.tsx:18 | zooming in stays on a reachable level and never decreases below the top |
| ImageViewer.ZoomedOut | client/src/components/win95/ImageViewer.tsx:16 | zooming out stays on a reachable level and never increases above the bottom |
| ImageViewer.InThenOut | client/src/components/win95/ImageViewer.tsx:16-18 | in then out, and out then in, return to the start away from the ends |
| ImageViewer.EndsAreFixed | client/src/components/win95/ImageViewer.tsx:16-18 | a button does nothing exactly at its end of the range |
| ImageViewer.ZoomInTimesValue | client/src/components/win95/ImageViewer.tsx:18 | k presses add 25 each, up to 400 |
| ImageViewer.FitToMax | client/src/components/win95/ImageViewer.tsx:10-18 | twelve presses from 100% reach 400% |
| ImageViewer.Viewer.constructor | client/src/components/win95/ImageViewer.tsx:10 | starts at 100% |
| ImageViewer.Viewer.ZoomOut | client/src/components/win95/ImageViewer.tsx:16 | applies ZoomedOut |
| ImageViewer.Viewer.ZoomIn | client/src/components/win95/ImageViewer.tsx:18 | applies ZoomedIn |
| ImageViewer.Viewer.Fit | client/src/components/win95/ImageViewer.tsx:19 | goes back to 100% |
| DesktopStore.Step | client/src/lib/desktopStore.ts:34-39 | each setter writes its own field with the value it carries (the toggle flips the Start menu, the closes clear), and leaves every other field as it was |
| DesktopStore.StepLaws | client/src/lib/desktopStore.ts:36-39 | two toggles cancel; closing twice is closing once; a context menu shows what it was opened with |
| DesktopStore.SaveRestore | client/src/lib/desktopStore.ts:29-43 | a saved record survives a reload, and a state survives exactly when its other fields are at their initial values |
| DesktopStore.SavedOnlyByWallpaper | client/src/lib/desktopStore.ts:34-43 | only the wallpaper setter changes what is saved |
| DesktopStore.Store.constructor | client/src/lib/desktopStore.ts:29-32 | the initial flags |
| DesktopStore.Store.SetWallpaper | client/src/lib/desktopStore.ts:34 | applies the setter's step |
| DesktopStore.Store.SetSelectedIcon | client/src/lib/desktopStore.ts:35 | applies the setter's step |
| DesktopStore.Store.ToggleStartMenu | client/src/lib/desktopStore.ts:36 | applies the setter's step |
| DesktopStore.Store.CloseStartMenu | client/src/lib/desktopStore.ts:37 | applies the setter's step |
| DesktopStore.Store.OpenContextMenu | client/src/lib/desktopStore.ts:38 | applies the setter's step |
| DesktopStore.Store.CloseContextMenu | client/src/lib/desktopStore.ts:39 | applies the setter's step |
| DesktopStore.Store.Persisted | client/src/lib/desktopStore.ts:43 | the stored record is the partialized state |
| DisplaySettings.EveryWallpaperListed | client/src/components/win95/DisplaySettings.tsx:6-12 | every wallpaper is offered exactly once |
| DisplaySettings.Dialog.constructor | client/src/components/win95/DisplaySettings.tsx:20 | the pending choice starts at the stored wallpaper |
| DisplaySettings.Dialog.Select | client/src/components/win95/DisplaySettings.tsx:68 | a list click changes only the pending choice |
| DisplaySettings.Dialog.Apply | client/src/components/win95/DisplaySettings.tsx:22-24 | writes the pending choice to the store |
| DisplaySettings.Dialog.Ok | client/src/components/win95/DisplaySettings.tsx:26-29 | writes the pending choice and closes the window; focus is cleared only if it was this window, and the counter is kept |
| DisplaySettings.Dialog.Cancel | client/src/components/win95/DisplaySettings.tsx:80 | closes the window and writes nothing; focus is cleared only if it was this window, and the counter is kept |
| DisplaySettings.ApplyThenCancel | client/src/components/win95/DisplaySettings.tsx:22-80 | a choice that was applied stays after Cancel, and the window is closed |
| Newsletter.TrimStart | client/src/components/win95/NewsletterDialog.tsx:15 | removes exactly the leading white space |
| Newsletter.TrimEnd | client/src/components/win95/NewsletterDialog.tsx:15 | removes exactly the trailing white space |
| Newsletter.TrimEmptyIffBlank | client/src/components/win95/NewsletterDialog.tsx:15-19 | the trimmed text is empty exactly when the field is all white space |
| Newsletter.TrimKeepsAtSign | client/src/components/win95/NewsletterDialog.tsx:19 | trimming neither adds nor removes an at sign |
| Newsletter.Validate | client/src/components/win95/NewsletterDialog.tsx:14-22 | the name error exactly for a blank name; the email error exactly for a blank email or one with no at sign; no error otherwise |
| Newsletter.AtSignSuffices | client/src/components/win95/NewsletterDialog.tsx:19-22 | with a name given, any email holding an at sign passes, whatever surrounds it |
| Newsletter.NameReportedFirst | client/src/components/win95/NewsletterDialog.tsx:15-18 | a blank name is reported whatever the email |
| Newsletter.Form.constructor | client/src/components/win95/NewsletterDialog.tsx:9-12 | empty fields, not submitted, no error |
| Newsletter.Form.CurrentView | client/src/components/win95/NewsletterDialog.tsx:28 | the thank-you view exactly when submitted |
| Newsletter.Form.SetName | client/src/components/win95/NewsletterDialog.tsx:9 | sets the name only |
| Newsletter.Form.SetEmail | client/src/components/win95/NewsletterDialog.tsx:10 | sets the email only |
| Newsletter.Form.HandleSubmit | client/src/components/win95/NewsletterDialog.tsx:14-26 | shows the validator's error and submits nothing; with no error it clears the error and switches to the thank-you view |
| Numerals.Decimal | client/src/components/win95/Minesweeper.tsx:170 | the number's decimal digits, without padding: zero is `0` and any other number starts with a nonzero digit |
| Numerals.DecimalValue | client/src/components/win95/Solitaire.tsx:183-187 | the decimal text reads back as the number |
| Numerals.ZerosValue | client/src/components/win95/Minesweeper.tsx:170 | leading zeros do not change the value |

## Left out

- Randomness: the mine draws and the shuffle's swap indices are parameters; a draw sequence with too few legal cells is excluded by `requires`, where the source loops until it finds enough.
- Timers: the one-second intervals and the Solitaire win check's 100 ms timeout are separate methods (`Tick`, `WinCheck`) that the caller runs; the taskbar clock is not modelled, as it only shows the time of day.
- Solitaire.Game.WinCheck: takes the foundations captured when the move was made, as the timeout's closure does, so it does not see the move itself; this is modelled, not corrected.
- Solitaire.Game.MoveCards, Solitaire.Game.HandleCardClick: apply the corrected move, not the as-written one (see Findings), so a move between two tableau piles or two foundations conserves the cards where the source duplicates them.
- Solitaire.Game.HandleCardClick: a selection made before a draw still names the old waste card, as in the source; the stale selection is not corrected.
- Solitaire.Game.Tick: has no upper bound, as in the source.
- Solitaire.ShuffleDeck: states a permutation only, not that the swaps are uniformly random.
- The page layout: styling, rendering, `getBoundingClientRect` and the 300 ms double-click detector of the desktop icons are not modelled; a double click is one event.
- Browser calls: `window.open`, `alert` and `console.log` are effect values or left out.
- Notepad texts and pictures: their contents (Desktop.tsx:91-183) are a parameter of the desktop shell, not the literal tables.
- The blog posts' titles, dates and bodies: posts are a parameter of the browser; only the shipped ids are stated.
- The desktop's context menu actions and the Start menu's rendering: the menu items' callbacks are functions in the source; only the stored menu position and items are modelled.
- Object keys inherited from JavaScript's prototype (such as a shortcut id named `constructor`) are not modelled; the shortcut table is a plain map.
- React render timing: each handler reads the state as one consistent snapshot; stale closures across renders are modelled only where stated above.
- Persistence: the local storage write is the `Persisted` record; reading a corrupted stored record is not modelled.
- The Starcraft game, the Notepad text editor and the dialog frames are not part of this model.

## Findings

| source | as written | input that shows it | evidently intended | confidence | as-written member | corrected member |
|---|---|---|---|---|---|---|
| client/src/components/win95/Solitaire.tsx:143-160 | a move between two tableau piles, or between two foundations, builds the destination list from the piles as they were before the move, so the removal from the source is overwritten | a face-up king alone on tableau pile 0, moved to the empty pile 1: afterwards both piles hold the king | the source loses the moved cards and the target gains them, conserving the deck | not executed | Solitaire.MovedAsWritten / Solitaire.SameKindMoveDuplicates | Solitaire.Moved / Solitaire.MoveConserves |

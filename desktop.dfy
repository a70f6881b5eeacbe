/** The desktop shell: the window descriptors it opens, the dispatch of
    double-clicks on icons and files and of Start menu clicks, and the
    per-window back history of the file browser windows. */
module Desktop {
  import opened Wrappers
  import opened WindowManager
  import opened FileExplorer

  // ---------------------------------------------------------------- tables

  datatype DesktopIcon = DesktopIcon(id: string, caption: string, icon: string, url: Option<string>, component: Option<string>)

  /** The icons on the desktop, in display order. */
  const DesktopIcons: seq<DesktopIcon> := [
    DesktopIcon("my-computer", "My Computer", "🖥️", None, Some("MyComputer")),
    DesktopIcon("internet-explorer", "Internet Explorer", "🌐", None, Some("InternetExplorer")),
    DesktopIcon("recycle-bin", "Recycle Bin", "🗑️", None, Some("RecycleBin")),
    DesktopIcon("photos", "Photos", "🖼️", None, Some("Photos")),
    DesktopIcon("games", "Games", "🎮", None, Some("Games")),
    DesktopIcon("network", "Network", "🌍", None, Some("Network")),
    DesktopIcon("youtube", "YouTube", "📺", Some("https://youtube.com"), None),
    DesktopIcon("linkedin", "LinkedIn", "💼", Some("https://linkedin.com"), None),
    DesktopIcon("newsletter", "Newsletter", "✉️", None, Some("Newsletter")),
    DesktopIcon("twitter", "Twitter", "🐦", Some("https://twitter.com"), None)
  ]

  function FileEntry(id: string, name: string, icon: string): FileItem
  {
    FileItem(id, name, icon, File, None)
  }

  function FolderEntry(id: string, name: string, icon: string, children: seq<FileItem>): FileItem
  {
    FileItem(id, name, icon, Folder, Some(children))
  }

  function ProjectFolder(n: string): FileItem
  {
    FolderEntry("project-" + n, "Project_" + n, "📁", [FileEntry("desc-" + n, "Description.txt", "📝")])
  }

  const ResumeFile: FileItem := FileEntry("resume", "Resume.doc", "📄")

  const MyComputerFiles: seq<FileItem> := [
    FolderEntry("my-documents", "My Documents", "📁", [
      ResumeFile,
      FileEntry("about-me", "About_Me.txt", "📝"),
      FolderEntry("projects", "Projects", "📁", [ProjectFolder("1"), ProjectFolder("2"), ProjectFolder("3")])
    ]),
    FolderEntry("my-pictures", "My Pictures", "🖼️", []),
    FolderEntry("my-music", "My Music", "🎵", [])
  ]

  const PhotosFiles: seq<FileItem> := [
    FileEntry("crt", "CRT_Computer.png", "🖼️"),
    FileEntry("floppy", "Floppy_Disks.png", "🖼️"),
    FileEntry("cdrom", "CD_Collection.png", "🖼️"),
    FileEntry("modem", "Dial_Up_Modem.png", "🖼️"),
    FileEntry("pixel", "Pixel_Art.png", "🖼️")
  ]

  const RecycleBinFiles: seq<FileItem> := [
    FileEntry("old-resume", "old_resume_draft.doc", "📄"),
    FileEntry("cringe", "cringe_photo.bmp", "🖼️"),
    FileEntry("test", "test_file.txt", "📝")
  ]

  const GamesFiles: seq<FileItem> := [
    FileEntry("solitaire", "Solitaire", "🃏"),
    FileEntry("minesweeper", "Minesweeper", "💣")
  ]

  const NetworkFiles: seq<FileItem> := [
    FileItem("youtube-url", "YouTube.url", "📺", Shortcut, None),
    FileItem("linkedin-url", "LinkedIn.url", "💼", Shortcut, None),
    FileItem("twitter-url", "Twitter.url", "🐦", Shortcut, None),
    FileItem("newsletter-url", "Newsletter.url", "✉️", Shortcut, None)
  ]

  /** The external addresses of the network shortcuts. */
  const ShortcutUrls: map<string, string> := map[
    "youtube-url" := "https://youtube.com",
    "linkedin-url" := "https://linkedin.com",
    "twitter-url" := "https://twitter.com"
  ]

  /** The ids that have a text in the notepad table, and the ids that have a
      picture; the texts and pictures themselves are parameters. */
  const TextIds: set<string> := {"resume", "about-me", "desc-1", "desc-2", "desc-3"}
  const ImageIds: set<string> := {"crt", "floppy", "cdrom", "modem", "pixel"}

  // ---------------------------------------------------------------- descriptors

  /** A descriptor whose size is at least its minimum size. */
  predicate FitsMinimums(d: Descriptor)
  {
    d.minWidth <= d.width && d.minHeight <= d.height
  }

  function ExplorerWindow(id: string, title: string, icon: string, files: seq<FileItem>, path: string): (d: Descriptor)
    ensures d.id == id && d.component == "FileExplorer" && d.props == ExplorerProps(files, path)
    ensures FitsMinimums(d)
  {
    Descriptor(id, title, icon, 100, 50, 500, 400, 300, 200, false, false, "FileExplorer", ExplorerProps(files, path))
  }

  /** A file's text, or the empty text when the table has none (the source falls back to the empty string). */
  function TextOf(texts: map<string, string>, fileId: string): string
  {
    if fileId in texts then texts[fileId] else ""
  }

  function NotepadWindow(texts: map<string, string>, fileId: string, title: string): (d: Descriptor)
    ensures d.id == "notepad-" + fileId && d.title == title + " - Notepad" && d.component == "Notepad"
    ensures d.props == NotepadProps(TextOf(texts, fileId), title)
    ensures FitsMinimums(d)
  {
    Descriptor("notepad-" + fileId, title + " - Notepad", "📝", 150, 80, 450, 350, 250, 150, false, false,
               "Notepad", NotepadProps(TextOf(texts, fileId), title))
  }

  /** An image's picture; the empty text stands for the missing entry. */
  function ImageOf(images: map<string, string>, imageId: string): string
  {
    if imageId in images then images[imageId] else ""
  }

  function ImageWindow(images: map<string, string>, imageId: string, title: string): (d: Descriptor)
    ensures d.id == "image-" + imageId && d.title == title + " - Image Viewer" && d.component == "ImageViewer"
    ensures d.props == ImageProps(ImageOf(images, imageId), title)
    ensures FitsMinimums(d)
  {
    Descriptor("image-" + imageId, title + " - Image Viewer", "🖼️", 120, 60, 500, 400, 250, 200, false, false,
               "ImageViewer", ImageProps(ImageOf(images, imageId), title))
  }

  datatype Game = SolitaireGame | MinesweeperGame

  function GameWindow(game: Game): (d: Descriptor)
    ensures d.id == (if game.SolitaireGame? then "solitaire" else "minesweeper") && d.props == NoProps
    ensures d.component == d.title == (if game.SolitaireGame? then "Solitaire" else "Minesweeper")
    ensures FitsMinimums(d)
  {
    match game {
      case SolitaireGame =>
        Descriptor("solitaire", "Solitaire", "🃏", 80, 40, 700, 550, 300, 300, false, false, "Solitaire", NoProps)
      case MinesweeperGame =>
        Descriptor("minesweeper", "Minesweeper", "💣", 80, 40, 400, 450, 300, 300, false, false, "Minesweeper", NoProps)
    }
  }

  /** Window ids name what they show: a note and a picture never share a
      window, the games' windows are neither, and each file has its own. */
  lemma WindowIdsDistinct(texts: map<string, string>, images: map<string, string>, a: string, b: string,
                          ta: string, tb: string, game: Game)
    ensures NotepadWindow(texts, a, ta).id == NotepadWindow(texts, b, tb).id <==> a == b
    ensures ImageWindow(images, a, ta).id == ImageWindow(images, b, tb).id <==> a == b
    ensures NotepadWindow(texts, a, ta).id != ImageWindow(images, b, tb).id
    ensures GameWindow(game).id != NotepadWindow(texts, a, ta).id && GameWindow(game).id != ImageWindow(images, b, tb).id
  {
    var na, nb := NotepadWindow(texts, a, ta).id, NotepadWindow(texts, b, tb).id;
    if na == nb {
      assert a == na[|"notepad-"|..] && b == nb[|"notepad-"|..];
    }
    var ia, ib := ImageWindow(images, a, ta).id, ImageWindow(images, b, tb).id;
    if ia == ib {
      assert a == ia[|"image-"|..] && b == ib[|"image-"|..];
    }
    assert na[0] == 'n' && ib[0] == 'i';
    var gid := GameWindow(game).id;
    assert gid[0] != 'n' && gid[0] != 'i';
  }

  /** Every window the shell opens starts at least as large as its own
      minimum size, so the registry's size floor holds from the start. */
  lemma DescriptorsFitMinimums(texts: map<string, string>, images: map<string, string>, file: FileItem, item: MenuItem, icon: DesktopIcon)
    ensures var e := FileOpen(texts, images, file); e.Open? ==> FitsMinimums(e.d)
    ensures var e := StartMenuClick(texts, item); e.Open? ==> FitsMinimums(e.d)
    ensures var e := IconEffect(icon); e.Open? ==> FitsMinimums(e.d)
  {
  }

  const InternetExplorerWindow: Descriptor :=
    Descriptor("internet-explorer", "Internet Explorer", "🌐", 60, 30, 600, 450, 400, 300, false, false,
               "InternetExplorer", NoProps)

  const DisplaySettingsWindow: Descriptor :=
    Descriptor("display-settings", "Display Properties", "🖥️", 200, 100, 320, 380, 280, 340, false, false,
               "DisplaySettings", NoProps)

  // ---------------------------------------------------------------- dispatch

  /** What a click or double-click leads to. */
  datatype Effect =
    | NoEffect
    | Open(d: Descriptor)
    | ShowNewsletter
    | OpenExternal(url: string)
    | Alert(message: string)

  predicate StartsWith(s: string, prefix: string)
  {
    |prefix| <= |s| && forall i :: 0 <= i < |prefix| ==> s[i] == prefix[i]
  }

  /** Ids that open in the image viewer: those starting with one of the five picture names. */
  predicate IsImageId(id: string)
  {
    StartsWith(id, "crt") || StartsWith(id, "floppy") || StartsWith(id, "cdrom")
    || StartsWith(id, "modem") || StartsWith(id, "pixel")
  }

  /** Opening an item handed over by a file browser window: files open a
      window named after their id and nothing else; shortcuts never open a
      window; folders (those reaching this point list no children) do nothing. */
  function FileOpen(texts: map<string, string>, images: map<string, string>, file: FileItem): (e: Effect)
    ensures file.kind == File <==> e.Open?
    ensures file.kind == File && IsImageId(file.id) ==>
      e.d.id == "image-" + file.id && e.d.props == ImageProps(ImageOf(images, file.id), file.name)
    ensures file.kind == File && !IsImageId(file.id) && file.id in {"solitaire", "minesweeper"} ==>
      e.d.id == file.id && e.d.props == NoProps
    ensures file.kind == File && !IsImageId(file.id) && file.id !in {"solitaire", "minesweeper"} ==>
      e.d.id == "notepad-" + file.id && e.d.props == NotepadProps(TextOf(texts, file.id), file.name)
    ensures file.kind == Shortcut ==>
      && (e.ShowNewsletter? <==> file.id == "newsletter-url")
      && (e.OpenExternal? <==> file.id != "newsletter-url" && file.id in ShortcutUrls)
      && (e.OpenExternal? ==> e.url == ShortcutUrls[file.id])
      && (e.NoEffect? <==> file.id != "newsletter-url" && file.id !in ShortcutUrls)
    ensures file.kind == Folder ==> e.NoEffect?
  {
    match file.kind {
      case File =>
        if IsImageId(file.id) then Open(ImageWindow(images, file.id, file.name))
        else if file.id == "solitaire" then Open(GameWindow(SolitaireGame))
        else if file.id == "minesweeper" then Open(GameWindow(MinesweeperGame))
        else Open(NotepadWindow(texts, file.id, file.name))
      case Shortcut =>
        if file.id == "newsletter-url" then ShowNewsletter
        else if file.id in ShortcutUrls then OpenExternal(ShortcutUrls[file.id])
        else NoEffect
      case Folder => NoEffect
    }
  }

  /** The pictures of the Photos folder open in the image viewer. */
  lemma PhotosOpenPictures(texts: map<string, string>, images: map<string, string>, i: nat)
    requires i < |PhotosFiles|
    ensures var e := FileOpen(texts, images, PhotosFiles[i]);
      e.Open? && e.d.id == "image-" + PhotosFiles[i].id && e.d.component == "ImageViewer"
  {
    var id := PhotosFiles[i].id;
    assert StartsWith(id, id);
  }

  /** The entries of the Games folder open the games. */
  lemma GamesOpenGames(texts: map<string, string>, images: map<string, string>, i: nat)
    requires i < |GamesFiles|
    ensures var e := FileOpen(texts, images, GamesFiles[i]);
      e.Open? && e.d.id == GamesFiles[i].id && e.d.component == GamesFiles[i].name
  {
    var id := GamesFiles[i].id;
    assert id[0] != 'c' && id[0] != 'f' && id[0] != 'p';
    assert id[0] == 'm' ==> id[1] != 'o';
  }

  /** The first occurrence of `pat` in `s` replaced by `rep`, as the string
      `replace` of the browser runtime does with a text pattern. */
  function ReplaceFirst(s: string, pat: string, rep: string): string
    decreases |s|
  {
    if |pat| == 0 then rep + s
    else if |s| < |pat| then s
    else if s[..|pat|] == pat then rep + s[|pat|..]
    else [s[0]] + ReplaceFirst(s[1..], pat, rep)
  }

  datatype MenuItem = MenuItem(id: string, caption: string)

  const ProjectMenuIds: set<string> := {"project-1-menu", "project-2-menu", "project-3-menu"}

  /** The project number inside a project menu id. */
  function ProjectNumber(id: string): string
  {
    ReplaceFirst(ReplaceFirst(id, "project-", ""), "-menu", "")
  }

  /** A click on a Start menu entry. Entries that only open a submenu, and the
      ones without a handler, do nothing. */
  function StartMenuClick(texts: map<string, string>, item: MenuItem): (e: Effect)
    ensures e.Alert? <==> item.id == "shutdown"
    ensures e.NoEffect? <==>
      item.id !in ProjectMenuIds && item.id !in {"solitaire", "minesweeper", "ie", "resume-doc", "about-txt", "display", "shutdown"}
    ensures !e.ShowNewsletter? && !e.OpenExternal?
    ensures item.id in {"solitaire", "minesweeper"} ==> e.Open? && e.d.id == item.id
  {
    if item.id in ProjectMenuIds then ProjectNotepad(texts, item.id)
    else match item.id {
      case "solitaire" => Open(GameWindow(SolitaireGame))
      case "minesweeper" => Open(GameWindow(MinesweeperGame))
      case "ie" => Open(InternetExplorerWindow)
      case "resume-doc" => Open(NotepadWindow(texts, "resume", item.caption))
      case "about-txt" => Open(NotepadWindow(texts, "about-me", item.caption))
      case "display" => Open(DisplaySettingsWindow)
      case "shutdown" => Alert("Thanks for visiting! Come back soon!")
      case _ => NoEffect
    }
  }

  function ProjectNotepad(texts: map<string, string>, id: string): Effect
  {
    var n := ProjectNumber(id);
    Open(NotepadWindow(texts, "desc-" + n, "Project " + n + " - Description.txt"))
  }

  /** A project menu id `project-N-menu` yields N. */
  lemma ProjectNumberOf(n: char)
    requires n != '-' && n != 'p'
    ensures ProjectNumber("project-" + [n] + "-menu") == [n]
  {
    var id := "project-" + [n] + "-menu";
    assert id[..|"project-"|] == "project-";
    assert id[|"project-"|..] == [n] + "-menu";
    var s := [n] + "-menu";
    assert ReplaceFirst(id, "project-", "") == s;
    assert s[..5] != "-menu" by { assert s[0] != '-'; }
    assert s[1..] == "-menu";
    assert ReplaceFirst(s[1..], "-menu", "") == "";
  }

  /** The three project entries open the matching description, titled after it. */
  lemma ProjectMenus(texts: map<string, string>, n: char)
    requires n in "123"
    ensures var e := StartMenuClick(texts, MenuItem("project-" + [n] + "-menu", "Project_" + [n]));
      && e.Open?
      && e.d.id == "notepad-desc-" + [n]
      && e.d.title == "Project " + [n] + " - Description.txt - Notepad"
      && e.d.props == NotepadProps(TextOf(texts, "desc-" + [n]), "Project " + [n] + " - Description.txt")
  {
    var id := "project-" + [n] + "-menu";
    ProjectNumberOf(n);
    ProjectEntry(texts, MenuItem(id, "Project_" + [n]), n);
    var title := "Project " + [n] + " - Description.txt";
    var d := NotepadWindow(texts, "desc-" + [n], title);
    assert StartMenuClick(texts, MenuItem(id, "Project_" + [n])) == Open(d);
    assert "notepad-" + ("desc-" + [n]) == "notepad-desc-" + [n];
    assert title + " - Notepad" == "Project " + [n] + " - Description.txt - Notepad";
  }

  lemma ProjectEntry(texts: map<string, string>, item: MenuItem, n: char)
    requires item.id == "project-" + [n] + "-menu" && n in "123"
    ensures StartMenuClick(texts, item) == ProjectNotepad(texts, item.id)
  {
    if n == '1' {
      assert item.id == "project-1-menu";
    } else if n == '2' {
      assert item.id == "project-2-menu";
    } else {
      assert item.id == "project-3-menu";
    }
  }

  /** Entries the handler does not name do nothing. */
  lemma UnlistedStartEntries(texts: map<string, string>, item: MenuItem)
    requires item.id in {"programs", "games-menu", "documents", "projects-menu", "settings", "find", "help", "run"}
    ensures StartMenuClick(texts, item) == NoEffect
  {
  }

  /** Resume.doc opened from the Start menu and from My Computer asks for the
      same window, so the second open focuses the first. */
  lemma ResumeSameWindow(texts: map<string, string>, images: map<string, string>)
    ensures MyComputerFiles[0].children.value[0] == ResumeFile
    ensures StartMenuClick(texts, MenuItem("resume-doc", "Resume.doc")) == FileOpen(texts, images, ResumeFile)
    ensures FileOpen(texts, images, ResumeFile).d.id == "notepad-resume"
  {
    var id := ResumeFile.id;
    assert id[0] == 'r';
  }

  /** The first icon with the id (the `find` of the icon list). */
  function FindIcon(icons: seq<DesktopIcon>, id: string): (r: Option<DesktopIcon>)
    ensures r.Some? ==> r.value in icons && r.value.id == id
    ensures r.Some? ==> exists k :: 0 <= k < |icons| && icons[k] == r.value && forall j :: 0 <= j < k ==> icons[j].id != id
    ensures r.None? ==> forall k :: 0 <= k < |icons| ==> icons[k].id != id
  {
    if |icons| == 0 then None
    else if icons[0].id == id then Some(icons[0])
    else FindIcon(icons[1..], id)
  }

  /** What a double-click on a known icon does: its address is opened outside
      when it has one; otherwise its component picks the window. */
  function IconEffect(icon: DesktopIcon): (e: Effect)
    ensures e.OpenExternal? <==> icon.url.Some?
    ensures e.OpenExternal? ==> e.url == icon.url.value
    ensures e.ShowNewsletter? <==> icon.url.None? && icon.component == Some("Newsletter")
  {
    if icon.url.Some? then OpenExternal(icon.url.value)
    else if icon.component == Some("MyComputer") then
      Open(ExplorerWindow("my-computer", "My Computer", "🖥️", MyComputerFiles, "C:\\"))
    else if icon.component == Some("InternetExplorer") then Open(InternetExplorerWindow)
    else if icon.component == Some("RecycleBin") then
      Open(ExplorerWindow("recycle-bin", "Recycle Bin", "🗑️", RecycleBinFiles, "Recycle Bin"))
    else if icon.component == Some("Photos") then
      Open(ExplorerWindow("photos", "Photos", "🖼️", PhotosFiles, "C:\\Photos"))
    else if icon.component == Some("Games") then
      Open(ExplorerWindow("games", "Games", "🎮", GamesFiles, "C:\\Games"))
    else if icon.component == Some("Network") then
      Open(ExplorerWindow("network", "Network", "🌍", NetworkFiles, "Network"))
    else if icon.component == Some("Newsletter") then ShowNewsletter
    else NoEffect
  }

  /** A double-click on a desktop icon; an unknown id does nothing. */
  function IconDoubleClick(iconId: string): (e: Effect)
    ensures FindIcon(DesktopIcons, iconId).None? ==> e.NoEffect?
    ensures FindIcon(DesktopIcons, iconId).Some? ==> e == IconEffect(FindIcon(DesktopIcons, iconId).value)
  {
    match FindIcon(DesktopIcons, iconId) {
      case None => NoEffect
      case Some(icon) => IconEffect(icon)
    }
  }

  /** Every icon on the desktop does something: the ones with an address open
      it outside and create no window, and the others open the window whose
      id is the icon's own or show the newsletter dialog. */
  lemma DesktopIconsAct(i: nat)
    requires i < |DesktopIcons|
    ensures var icon := DesktopIcons[i]; var e := IconEffect(icon);
      && !e.NoEffect?
      && (e.OpenExternal? <==> icon.url.Some?)
      && (e.Open? ==> e.d.id == icon.id)
      && (e.ShowNewsletter? <==> icon.id == "newsletter")
  {
  }

  // ---------------------------------------------------------------- browser history

  /** A place a browser window has been: its path and items. */
  datatype Place = Place(path: string, items: seq<FileItem>)

  type Histories = map<string, seq<Place>>

  /** The places recorded for one window (none when it has no entry). */
  function HistoryOf(h: Histories, id: string): (r: seq<Place>)
    ensures id !in h ==> r == []
  {
    if id in h then h[id] else []
  }

  /** The back button is enabled exactly when the window has a recorded place. */
  predicate CanGoBack(h: Histories, id: string)
  {
    |HistoryOf(h, id)| > 0
  }

  /** The history with `p` recorded last for window `id`. */
  function Pushed(h: Histories, id: string, p: Place): (r: Histories)
    ensures CanGoBack(r, id)
    ensures HistoryOf(r, id) == HistoryOf(h, id) + [p]
    ensures forall o :: o != id ==> HistoryOf(r, o) == HistoryOf(h, o)
  {
    h[id := HistoryOf(h, id) + [p]]
  }

  /** The place recorded last for window `id`. */
  function Latest(h: Histories, id: string): (p: Place)
    requires CanGoBack(h, id)
    ensures p in HistoryOf(h, id)
  {
    HistoryOf(h, id)[|HistoryOf(h, id)| - 1]
  }

  /** The history with the latest place of window `id` taken off. */
  function Popped(h: Histories, id: string): (r: Histories)
    requires CanGoBack(h, id)
    ensures HistoryOf(r, id) + [Latest(h, id)] == HistoryOf(h, id)
    ensures forall o :: o != id ==> HistoryOf(r, o) == HistoryOf(h, o)
  {
    h[id := HistoryOf(h, id)[..|HistoryOf(h, id)| - 1]]
  }

  /** The descriptor a browser window is reopened with after navigating. */
  function NavigatedWindow(win: WindowRecord, newPath: string, newItems: seq<FileItem>): (d: Descriptor)
    ensures d.id == win.id && d.icon == win.icon && d.component == "FileExplorer"
    ensures d.props == ExplorerProps(newItems, newPath)
    ensures LastSegment(newPath) != "" ==> d.title == LastSegment(newPath)
    ensures LastSegment(newPath) == "" ==> d.title == win.title
  {
    ExplorerWindow(win.id, TitleFor(newPath, win.title), win.icon, newItems, newPath)
  }

  /** The descriptor a browser window is reopened with after going back. */
  function BackWindow(win: WindowRecord, prev: Place): (d: Descriptor)
    ensures d.id == win.id && d.icon == win.icon && d.component == "FileExplorer"
    ensures d.props == ExplorerProps(prev.items, prev.path)
    ensures LastSegment(prev.path) != "" ==> d.title == LastSegment(prev.path)
    ensures LastSegment(prev.path) == "" ==> d.title == "Explorer"
  {
    ExplorerWindow(win.id, TitleFor(prev.path, "Explorer"), win.icon, prev.items, prev.path)
  }

  /** Going back right after navigating pops the place just recorded and
      leaves the history of every window as it was (an absent entry becomes
      an empty one); other windows' histories are never touched. */
  lemma PushThenPop(h: Histories, id: string, p: Place)
    ensures CanGoBack(Pushed(h, id, p), id) && Latest(Pushed(h, id, p), id) == p
    ensures Popped(Pushed(h, id, p), id) == h[id := HistoryOf(h, id)]
  {
    var old_ := HistoryOf(h, id);
    var h' := Pushed(h, id, p);
    assert HistoryOf(h', id) == old_ + [p];
    assert (old_ + [p])[..|old_|] == old_;
  }

  /** Recording a place for one window leaves every other window's history alone. */
  lemma PushKeepsOthers(h: Histories, id: string, p: Place, other: string)
    requires other != id
    ensures HistoryOf(Pushed(h, id, p), other) == HistoryOf(h, other)
    ensures CanGoBack(h, other) ==> HistoryOf(Popped(h, other), id) == HistoryOf(h, id)
  {
  }

  /** The window reopened by going back shows the place it showed before navigating. */
  lemma NavigateThenBack(win: WindowRecord, newPath: string, newItems: seq<FileItem>, offset: int, z: int)
    requires win.props.ExplorerProps?
    ensures var reopened := Created(NavigatedWindow(win, newPath, newItems), offset, z);
      var back := BackWindow(reopened, Place(win.props.path, win.props.files));
      && reopened.id == win.id && reopened.props == ExplorerProps(newItems, newPath)
      && back.id == win.id && back.props == win.props && back.icon == win.icon
  {
  }

  /** A browser window reopened on the drive root is titled "Explorer": the
      last segment of `C:\` is empty. */
  lemma DriveRootTitle()
    ensures TitleFor("C:\\", "Explorer") == "Explorer"
  {
    SplitSnocSeparator("C:");
    assert "C:\\" == "C:" + [Separator];
  }

  // ---------------------------------------------------------------- the shell

  /** The desktop's own state: the registry it drives, whether the newsletter
      dialog is shown, and the back history of each browser window. */
  class Shell {
    const registry: Registry
    const texts: map<string, string>
    const images: map<string, string>
    var showNewsletter: bool
    var navigationHistory: Histories

    ghost predicate Valid()
      reads this, registry
    {
      registry.Valid()
    }

    constructor (registry: Registry, texts: map<string, string>, images: map<string, string>)
      requires registry.Valid()
      ensures Valid() && this.registry == registry && this.texts == texts && this.images == images
      ensures !showNewsletter && navigationHistory == map[]
    {
      this.registry := registry;
      this.texts := texts;
      this.images := images;
      showNewsletter := false;
      navigationHistory := map[];
    }

    /** The newsletter dialog's close button hides the dialog. */
    method CloseNewsletter()
      requires Valid()
      modifies this
      ensures Valid() && !showNewsletter && navigationHistory == old(navigationHistory)
    {
      showNewsletter := false;
    }

    /** Carrying out an effect: a window is opened (or refocused when its id is
        already open), the dialog is shown; addresses and alerts leave the page. */
    method Perform(e: Effect)
      requires Valid()
      modifies this, registry
      ensures Valid() && navigationHistory == old(navigationHistory)
      ensures showNewsletter == (old(showNewsletter) || e.ShowNewsletter?)
      ensures !e.Open? ==>
        && registry.windows == old(registry.windows)
        && registry.activeWindowId == old(registry.activeWindowId) && registry.nextZIndex == old(registry.nextZIndex)
      ensures e.Open? ==>
        && (registry.windows, registry.nextZIndex) == AfterOpen(old(registry.windows), old(registry.nextZIndex), e.d)
        && registry.activeWindowId == Some(e.d.id) && OnTop(registry.windows, e.d.id)
    {
      match e {
        case Open(d) => registry.OpenWindow(d);
        case ShowNewsletter => showNewsletter := true;
        case NoEffect =>
        case OpenExternal(_) =>
        case Alert(_) =>
      }
    }

    /** A file handed over by a browser window: its effect, carried out. */
    method HandleFileOpen(file: FileItem) returns (e: Effect)
      requires Valid()
      modifies this, registry
      ensures Valid() && e == FileOpen(texts, images, file)
      ensures navigationHistory == old(navigationHistory)
      ensures file.kind != File ==> registry.windows == old(registry.windows)
      ensures showNewsletter == (old(showNewsletter) || e.ShowNewsletter?)
      ensures !e.Open? ==>
        && registry.windows == old(registry.windows)
        && registry.activeWindowId == old(registry.activeWindowId) && registry.nextZIndex == old(registry.nextZIndex)
      ensures e.Open? ==>
        && (registry.windows, registry.nextZIndex) == AfterOpen(old(registry.windows), old(registry.nextZIndex), e.d)
        && registry.activeWindowId == Some(e.d.id) && OnTop(registry.windows, e.d.id)
    {
      e := FileOpen(texts, images, file);
      Perform(e);
    }

    /** A Start menu entry: its effect, carried out. */
    method HandleStartMenuClick(item: MenuItem) returns (e: Effect)
      requires Valid()
      modifies this, registry
      ensures Valid() && e == StartMenuClick(texts, item)
      ensures navigationHistory == old(navigationHistory) && showNewsletter == old(showNewsletter)
      ensures !e.Open? ==>
        && registry.windows == old(registry.windows)
        && registry.activeWindowId == old(registry.activeWindowId) && registry.nextZIndex == old(registry.nextZIndex)
      ensures e.Open? ==>
        && (registry.windows, registry.nextZIndex) == AfterOpen(old(registry.windows), old(registry.nextZIndex), e.d)
        && registry.activeWindowId == Some(e.d.id) && OnTop(registry.windows, e.d.id)
    {
      e := StartMenuClick(texts, item);
      Perform(e);
    }

    /** A double-click on a desktop icon: its effect, carried out. */
    method HandleIconDoubleClick(iconId: string) returns (e: Effect)
      requires Valid()
      modifies this, registry
      ensures Valid() && e == IconDoubleClick(iconId)
      ensures navigationHistory == old(navigationHistory)
      ensures showNewsletter == (old(showNewsletter) || e.ShowNewsletter?)
      ensures !e.Open? ==>
        && registry.windows == old(registry.windows)
        && registry.activeWindowId == old(registry.activeWindowId) && registry.nextZIndex == old(registry.nextZIndex)
      ensures e.Open? ==>
        && (registry.windows, registry.nextZIndex) == AfterOpen(old(registry.windows), old(registry.nextZIndex), e.d)
        && registry.activeWindowId == Some(e.d.id) && OnTop(registry.windows, e.d.id)
    {
      e := IconDoubleClick(iconId);
      Perform(e);
    }

    /** Entering a folder in window `win`: its current place is recorded, and
        the window is closed and opened again on the new place, so it keeps
        its id, moves to the end of the list and is focused. */
    method OnNavigate(win: WindowRecord, newPath: string, newItems: seq<FileItem>)
      requires Valid() && win.props.ExplorerProps?
      modifies this, registry
      ensures Valid() && showNewsletter == old(showNewsletter)
      ensures navigationHistory == Pushed(old(navigationHistory), win.id, Place(win.props.path, win.props.files))
      ensures var rest := Without(old(registry.windows), win.id);
        registry.windows == rest + [Created(NavigatedWindow(win, newPath, newItems), CascadeStep * |rest|, old(registry.nextZIndex))]
      ensures registry.activeWindowId == Some(win.id) && registry.nextZIndex == old(registry.nextZIndex) + 1
      ensures Present(old(registry.windows), win.id) ==> |registry.windows| == |old(registry.windows)|
    {
      navigationHistory := Pushed(navigationHistory, win.id, Place(win.props.path, win.props.files));
      ReopenKeepsCount(registry.windows, win.id);
      registry.CloseWindow(win.id);
      registry.OpenWindow(NavigatedWindow(win, newPath, newItems));
    }

    /** The back button of window `win`: with a recorded place, the latest one
        is removed from the history and the window reopened on it; otherwise
        nothing happens. */
    method OnBack(win: WindowRecord)
      requires Valid()
      modifies this, registry
      ensures Valid() && showNewsletter == old(showNewsletter)
      ensures !CanGoBack(old(navigationHistory), win.id) ==>
        navigationHistory == old(navigationHistory) && registry.windows == old(registry.windows)
        && registry.activeWindowId == old(registry.activeWindowId) && registry.nextZIndex == old(registry.nextZIndex)
      ensures CanGoBack(old(navigationHistory), win.id) ==>
        var rest := Without(old(registry.windows), win.id);
        && navigationHistory == Popped(old(navigationHistory), win.id)
        && registry.windows == rest + [Created(BackWindow(win, Latest(old(navigationHistory), win.id)),
                                              CascadeStep * |rest|, old(registry.nextZIndex))]
        && registry.activeWindowId == Some(win.id) && registry.nextZIndex == old(registry.nextZIndex) + 1
        && (Present(old(registry.windows), win.id) ==> |registry.windows| == |old(registry.windows)|)
    {
      if win.id in navigationHistory && |navigationHistory[win.id]| > 0 {
        var history := navigationHistory[win.id];
        var prev := history[|history| - 1];
        navigationHistory := navigationHistory[win.id := history[..|history| - 1]];
        ReopenKeepsCount(registry.windows, win.id);
        registry.CloseWindow(win.id);
        registry.OpenWindow(BackWindow(win, prev));
      }
    }
  }

  /** Removing a present id takes exactly one record away. */
  lemma ReopenKeepsCount(ws: seq<WindowRecord>, id: string)
    requires UniqueIds(ws)
    ensures Present(ws, id) ==> |Without(ws, id)| + 1 == |ws|
    ensures !Present(Without(ws, id), id)
  {
    WithoutAbsent(ws, id);
    if Present(ws, id) {
      var k := IndexOf(ws, id).value;
      WithoutRemovesOne(ws, id, k);
    }
  }
}

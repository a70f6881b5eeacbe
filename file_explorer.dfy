/** The file browser window: its items, the `\`-separated paths it builds when
    entering a folder, the choice between navigating and opening, and the
    selected-item field. */
module FileExplorer {
  import opened Wrappers

  datatype ItemKind = Folder | File | Shortcut

  /** A browser entry. `children` is present for the folders that list their contents. */
  datatype FileItem = FileItem(id: string, name: string, icon: string, kind: ItemKind, children: Option<seq<FileItem>>)

  const Separator: char := '\\'

  /** The path of a folder entered from `path`: the two joined by one separator. */
  function JoinPath(path: string, name: string): string
  {
    path + [Separator] + name
  }

  /** The segments of `s` between separators, as the string `split` of the
      browser runtime yields them (`""` gives `[""]`, a trailing separator an
     empty last segment). */
  function Split(s: string): (parts: seq<string>)
    ensures |parts| >= 1
    ensures forall k :: 0 <= k < |parts| ==> Separator !in parts[k]
    decreases |s|
  {
    if |s| == 0 then [""]
    else if s[|s| - 1] == Separator then Split(s[..|s| - 1]) + [""]
    else
      var p := Split(s[..|s| - 1]);
      p[..|p| - 1] + [p[|p| - 1] + [s[|s| - 1]]]
  }

  /** The inverse of `Split`: the segments joined with separators. */
  function JoinAll(parts: seq<string>): string
    requires |parts| >= 1
  {
    if |parts| == 1 then parts[0] else JoinAll(parts[..|parts| - 1]) + [Separator] + parts[|parts| - 1]
  }

  /** The last segment of `s` (the last element of the backslash split). */
  function LastSegment(s: string): string
  {
    var parts := Split(s);
    parts[|parts| - 1]
  }

  /** The title given to a browser window reopened on `path`: the last segment,
      or `fallback` when that segment is empty (the `||` of the source). */
  function TitleFor(path: string, fallback: string): (t: string)
    ensures LastSegment(path) != "" ==> t == LastSegment(path)
    ensures LastSegment(path) == "" ==> t == fallback
  {
    var last := LastSegment(path);
    if last != "" then last else fallback
  }

  /** Splitting and joining again gives the original path back. */
  lemma {:induction false} SplitJoinRoundTrip(s: string)
    ensures JoinAll(Split(s)) == s
    decreases |s|
  {
    if |s| == 0 {
    } else if s[|s| - 1] == Separator {
      SplitJoinRoundTrip(s[..|s| - 1]);
      var p := Split(s[..|s| - 1]);
      assert Split(s)[..|Split(s)| - 1] == p;
      assert s == s[..|s| - 1] + [Separator] + "";
    } else {
      var init := s[..|s| - 1];
      SplitJoinRoundTrip(init);
      InitLast(s);
      var p := Split(init);
      var q := Split(s);
      assert q[..|q| - 1] == p[..|p| - 1];
      if |p| > 1 {
        assert JoinAll(p) == JoinAll(p[..|p| - 1]) + [Separator] + p[|p| - 1];
      }
    }
  }

  lemma InitLast(s: string)
    requires |s| > 0
    ensures s == s[..|s| - 1] + [s[|s| - 1]]
  {
  }

  /** `parts` with `n` appended to its last segment. */
  function Extended(parts: seq<string>, n: string): seq<string>
    requires |parts| >= 1
  {
    parts[..|parts| - 1] + [parts[|parts| - 1] + n]
  }

  /** One character that is not a separator extends the last segment. */
  lemma SplitSnoc(s: string, c: char)
    requires c != Separator
    ensures Split(s + [c]) == Extended(Split(s), [c])
  {
    assert (s + [c])[..|s|] == s;
  }

  /** A trailing separator opens a new, empty segment. */
  lemma SplitSnocSeparator(s: string)
    ensures Split(s + [Separator]) == Split(s) + [""]
  {
    assert (s + [Separator])[..|s|] == s;
  }

  /** Appending separator-free text to a path only extends its last segment. */
  lemma {:induction false} SplitExtend(s: string, n: string)
    requires Separator !in n
    ensures Split(s + n) == Extended(Split(s), n)
    decreases |n|
  {
    if |n| == 0 {
      SplitExtendNone(s, n);
    } else {
      var n', c := n[..|n| - 1], n[|n| - 1];
      assert c in n;
      SplitExtend(s, n');
      ExtendOnce(s, n', c);
      assert n == n' + [c];
    }
  }

  /** The inductive step of `SplitExtend`: one more character that is not a
      separator. */
  lemma ExtendOnce(s: string, n: string, c: char)
    requires c != Separator
    requires Split(s + n) == Extended(Split(s), n)
    ensures Split(s + (n + [c])) == Extended(Split(s), n + [c])
  {
    SplitSnoc(s + n, c);
    AppendAssoc(s, n, [c]);
    ExtendTwice(Split(s), n, [c]);
  }

  lemma AppendAssoc(a: string, b: string, c: string)
    ensures a + (b + c) == (a + b) + c
  {
  }

  lemma SplitExtendNone(s: string, n: string)
    requires |n| == 0
    ensures Split(s + n) == Extended(Split(s), n)
  {
    var p := Split(s);
    assert s + n == s && p[|p| - 1] + n == p[|p| - 1];
    assert p[..|p| - 1] + [p[|p| - 1]] == p;
  }

  /** Extending twice is extending by both texts. */
  lemma ExtendTwice(p: seq<string>, n: string, m: string)
    requires |p| >= 1
    ensures Extended(Extended(p, n), m) == Extended(p, n + m)
  {
    var q := Extended(p, n);
    assert q[..|q| - 1] == p[..|p| - 1];
    AppendAssoc(p[|p| - 1], n, m);
  }

  /** Entering a folder adds exactly one segment, the folder's name. */
  lemma JoinPathSplit(path: string, name: string)
    requires Separator !in name
    ensures Split(JoinPath(path, name)) == Split(path) + [name]
    ensures LastSegment(JoinPath(path, name)) == name
  {
    var s := path + [Separator];
    SplitSnocSeparator(path);
    SplitExtend(s, name);
    var p := Split(s);
    assert p[..|p| - 1] == Split(path);
    assert p[|p| - 1] + name == name;
    assert Extended(p, name) == Split(path) + [name];
    assert JoinPath(path, name) == s + name;
  }

  /** What a double-click on an item asks the host window to do. */
  datatype DoubleClickEffect = Navigate(path: string, items: seq<FileItem>) | OpenFile(item: FileItem)

  /** A folder that lists children (even none) is entered; every other item is
      handed to the host unchanged. */
  function DoubleClick(path: string, item: FileItem): (e: DoubleClickEffect)
    ensures e.Navigate? <==> item.kind == Folder && item.children.Some?
    ensures e.Navigate? ==> e.items == item.children.value
    ensures e.OpenFile? ==> e.item == item
  {
    if item.kind == Folder && item.children.Some? then Navigate(JoinPath(path, item.name), item.children.value)
    else OpenFile(item)
  }

  /** Entering a folder whose name holds no separator titles the reopened
      window with exactly that name (when it is not empty). */
  lemma EnteredFolderTitle(path: string, item: FileItem, oldTitle: string)
    requires DoubleClick(path, item).Navigate?
    requires Separator !in item.name && item.name != ""
    ensures Split(DoubleClick(path, item).path) == Split(path) + [item.name]
    ensures TitleFor(DoubleClick(path, item).path, oldTitle) == item.name
  {
    JoinPathSplit(path, item.name);
  }

  /** Whether the Back and Forward toolbar buttons are enabled, given the
      optional `canGoBack` property (absent means false). */
  function NavButtons(canGoBack: Option<bool>): (enabled: (bool, bool))
    ensures enabled.0 <==> canGoBack == Some(true)
    ensures !enabled.1
  {
    (canGoBack.Some? && canGoBack.value, false)
  }

  /** The browser component's own state: the id of the selected item. */
  class Explorer {
    var selectedItem: Option<string>

    constructor ()
      ensures selectedItem == None
    {
      selectedItem := None;
    }

    /** An item is drawn as selected iff its id is the stored one, so at most
        one id is selected at a time. */
    predicate IsSelected(item: FileItem)
      reads this
    {
      selectedItem == Some(item.id)
    }

    /** A single click selects exactly that item. */
    method Click(item: FileItem)
      modifies this
      ensures selectedItem == Some(item.id)
      ensures IsSelected(item)
      ensures forall other: FileItem :: IsSelected(other) ==> other.id == item.id
    {
      selectedItem := Some(item.id);
    }
  }
}

/** The blog browser: a back/forward history of entries ("home" or a post id),
    the post shown and the address bar text. */
module InternetExplorer {
  import opened Wrappers

  /** A blog post; only the id matters to the browser, the text is opaque. */
  datatype BlogPost = BlogPost(id: string, title: string, date: string, summary: string, content: string)

  const Home: string := "home"
  const HomeUrl: string := "http://www.myportfolio.com/"

  /** The ids of the three posts the component ships. */
  const PostIds: seq<string> := ["1", "2", "3"]

  /** The shipped ids are distinct and none of them is the home entry, so
      opening a shipped post keeps the shown post in step with the history. */
  lemma ShippedIdsDistinct()
    ensures forall i, j :: 0 <= i < j < |PostIds| ==> PostIds[i] != PostIds[j]
    ensures Home !in PostIds
  {
    assert PostIds[0][0] == '1' && PostIds[1][0] == '2' && PostIds[2][0] == '3';
    assert |Home| == 4 && |PostIds[0]| == 1 && |PostIds[1]| == 1 && |PostIds[2]| == 1;
  }

  function PostUrl(id: string): string
  {
    HomeUrl + "blog/" + id
  }

  /** The first post with the given id, as `Array.find` returns it. */
  function FindPost(posts: seq<BlogPost>, id: string): (r: Option<BlogPost>)
    ensures r.Some? ==> r.value in posts && r.value.id == id
    ensures r.None? ==> forall k :: 0 <= k < |posts| ==> posts[k].id != id
    ensures r.Some? ==> exists k :: 0 <= k < |posts| && posts[k] == r.value && forall j :: 0 <= j < k ==> posts[j].id != id
  {
    if |posts| == 0 then None
    else if posts[0].id == id then Some(posts[0])
    else
      var r := FindPost(posts[1..], id);
      if r.Some? then
        var k :| 0 <= k < |posts[1..]| && posts[1..][k] == r.value && forall j :: 0 <= j < k ==> posts[1..][j].id != id;
        assert posts[k + 1] == r.value;
        r
      else r
  }

  predicate UniquePostIds(posts: seq<BlogPost>)
  {
    forall i, j :: 0 <= i < j < |posts| ==> posts[i].id != posts[j].id
  }

  /** With unique ids, the post found for a listed post's id is that post. */
  lemma FindListedPost(posts: seq<BlogPost>, post: BlogPost)
    requires UniquePostIds(posts) && post in posts
    ensures FindPost(posts, post.id) == Some(post)
  {
    var r := FindPost(posts, post.id);
    var i :| 0 <= i < |posts| && posts[i] == post;
    var k :| 0 <= k < |posts| && posts[k] == r.value && forall j :: 0 <= j < k ==> posts[j].id != post.id;
    assert !(i < k);
    assert !(k < i);
  }

  /** The post an entry shows: none for "home"; otherwise the post with that id, if any. */
  function Shown(posts: seq<BlogPost>, entry: string): Option<BlogPost>
  {
    if entry == Home then None else FindPost(posts, entry)
  }

  // ---------------------------------------------------------------- the history

  /** The history list and the index of the current entry. */
  datatype Nav = Nav(history: seq<string>, index: int)

  /** The history is never empty, the index points into it, and it starts at "home". */
  predicate NavOk(n: Nav)
  {
    |n.history| > 0 && 0 <= n.index < |n.history| && n.history[0] == Home
  }

  /** Back is enabled unless the index is 0; forward unless it is at the end. */
  predicate CanBack(n: Nav) { n.index != 0 }

  predicate CanForward(n: Nav) { !(n.index >= |n.history| - 1) }

  /** One step back; nothing at the first entry. */
  function Back(n: Nav): (r: Nav)
    ensures r.history == n.history && (NavOk(n) ==> NavOk(r))
    ensures NavOk(n) ==> (r != n <==> CanBack(n))
    ensures n.index > 0 ==> r.index == n.index - 1
  {
    if n.index > 0 then n.(index := n.index - 1) else n
  }

  /** One step forward; nothing at the last entry. */
  function Forward(n: Nav): (r: Nav)
    ensures r.history == n.history && (NavOk(n) ==> NavOk(r))
    ensures r != n <==> CanForward(n)
    ensures CanForward(n) ==> r.index == n.index + 1
  {
    if n.index < |n.history| - 1 then n.(index := n.index + 1) else n
  }

  /** Navigating: every entry after the current one is dropped and the new
      entry becomes the last and current one. */
  function Push(n: Nav, entry: string): (r: Nav)
    requires 0 <= n.index < |n.history|
    ensures NavOk(n) ==> NavOk(r)
    ensures 0 <= r.index < |r.history| && r.history[r.index] == entry && !CanForward(r)
    ensures |r.history| == n.index + 2 && r.history[..n.index + 1] == n.history[..n.index + 1]
  {
    var h := n.history[..n.index + 1] + [entry];
    Nav(h, |h| - 1)
  }

  function Entry(n: Nav): string
    requires 0 <= n.index < |n.history|
  {
    n.history[n.index]
  }

  /** Forward undoes back, and back undoes forward, when the step is possible. */
  lemma BackForward(n: Nav)
    requires NavOk(n)
    ensures CanBack(n) ==> Forward(Back(n)) == n
    ensures CanForward(n) ==> Back(Forward(n)) == n
  {
  }

  /** After navigating, the new entry is current and the last one, everything up
      to the old current entry is kept, back returns to the old current entry,
      and forward then returns to the new one. */
  lemma PushThenBackForward(n: Nav, entry: string)
    requires NavOk(n)
    ensures var p := Push(n, entry);
      && Entry(p) == entry && !CanForward(p) && CanBack(p)
      && p.history[..n.index + 1] == n.history[..n.index + 1]
      && Entry(Back(p)) == Entry(n)
      && Forward(Back(p)) == p
  {
  }

  // ---------------------------------------------------------------- the component

  /** The component: its fields are its state. */
  class Browser {
    const posts: seq<BlogPost>
    var currentUrl: string
    var selectedPost: Option<BlogPost>
    var history: seq<string>
    var historyIndex: int

    function Position(): Nav
      reads this
    {
      Nav(history, historyIndex)
    }

    ghost predicate Valid()
      reads this
    {
      NavOk(Position())
    }

    /** The shown post is the one the current entry names. */
    ghost predicate Coherent()
      reads this
      requires Valid()
    {
      selectedPost == Shown(posts, history[historyIndex])
    }

    constructor (posts: seq<BlogPost>)
      ensures this.posts == posts && Valid() && Coherent()
      ensures currentUrl == HomeUrl && selectedPost == None && history == [Home] && historyIndex == 0
    {
      this.posts := posts;
      currentUrl := HomeUrl;
      selectedPost := None;
      history := [Home];
      historyIndex := 0;
    }

    method GoBack()
      requires Valid()
      modifies this
      ensures Valid() && Position() == Back(old(Position()))
      ensures old(historyIndex) > 0 ==> Coherent()
      ensures old(historyIndex) == 0 ==> selectedPost == old(selectedPost)
      ensures currentUrl == old(currentUrl)
    {
      if historyIndex > 0 {
        var newIndex := historyIndex - 1;
        historyIndex := newIndex;
        if history[newIndex] == Home {
          selectedPost := None;
        } else {
          selectedPost := FindPost(posts, history[newIndex]);
        }
      }
    }

    method GoForward()
      requires Valid()
      modifies this
      ensures Valid() && Position() == Forward(old(Position()))
      ensures old(historyIndex) < |old(history)| - 1 ==> Coherent()
      ensures old(historyIndex) >= |old(history)| - 1 ==> selectedPost == old(selectedPost)
      ensures currentUrl == old(currentUrl)
    {
      if historyIndex < |history| - 1 {
        var newIndex := historyIndex + 1;
        historyIndex := newIndex;
        if history[newIndex] == Home {
          selectedPost := None;
        } else {
          selectedPost := FindPost(posts, history[newIndex]);
        }
      }
    }

    /** Opening a post from the list. */
    method OpenPost(post: BlogPost)
      requires Valid()
      modifies this
      ensures Valid() && Position() == Push(old(Position()), post.id)
      ensures selectedPost == Some(post) && currentUrl == PostUrl(post.id)
      ensures UniquePostIds(posts) && post in posts && post.id != Home ==> Coherent()
    {
      selectedPost := Some(post);
      var newHistory := history[..historyIndex + 1] + [post.id];
      history := newHistory;
      historyIndex := |newHistory| - 1;
      currentUrl := PostUrl(post.id);
      if UniquePostIds(posts) && post in posts {
        FindListedPost(posts, post);
      }
    }

    /** The home button pushes "home" even when the current entry is already home. */
    method GoHome()
      requires Valid()
      modifies this
      ensures Valid() && Position() == Push(old(Position()), Home) && Coherent()
      ensures selectedPost == None && currentUrl == HomeUrl
    {
      selectedPost := None;
      var newHistory := history[..historyIndex + 1] + [Home];
      history := newHistory;
      historyIndex := |newHistory| - 1;
      currentUrl := HomeUrl;
    }
  }
}

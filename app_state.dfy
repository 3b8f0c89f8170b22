/** The application state of src/app.rs: the story list with its cursor,
    page and cache, and the comment tree with its visible list, cursor and
    scroll offset. */
module AppState {
  import opened Wrappers
  import opened CommentTree
  import Items

  type HNCLIItem = Items.HNCLIItem

  /** Which screen is shown. */
  datatype View = Stories | Comments(storyId: int, storyTitle: string, storyUrl: string)

  /** The three story lists the API offers. */
  datatype StoryType = Best | New | Top
  {
    /** The name used in the API's list URL. */
    function AsStr(): string
    {
      match this
      case Best => "best"
      case New => "new"
      case Top => "top"
    }

    /** The name shown to the user. */
    function DisplayName(): string
    {
      match this
      case Best => "Best"
      case New => "New"
      case Top => "Top"
    }
  }

  /** Distinct kinds have distinct API names, and the shown name is the API
      name with its first letter in upper case. */
  lemma StoryTypeNames(s: StoryType, t: StoryType)
    ensures s.AsStr() == t.AsStr() <==> s == t
    ensures |s.DisplayName()| == |s.AsStr()| > 0
    ensures s.DisplayName()[1..] == s.AsStr()[1..]
    ensures s.DisplayName()[0] as int == s.AsStr()[0] as int - 32
  {
  }

  /** The largest value of Rust's `u32`, the type of the page number. */
  const U32Max: nat := 0xFFFF_FFFF
  /** Stories requested per page. */
  const DefaultPageSize: nat := 20
  /** Rows of the story screen that are not list rows. */
  const StoryChrome: nat := 4
  /** Rows of the comment screen that are not list rows. */
  const CommentChrome: nat := 6

  /** `a.saturating_sub(b)` on unsigned integers: the difference when it is
      not negative, else 0. */
  function SaturatingSub(a: nat, b: nat): (r: nat)
    ensures r <= a && a <= r + b
    ensures r > 0 ==> r + b == a
  {
    if a >= b then a - b else 0
  }

  /** The index `i` pulled back onto the last of `n` rows when it is past
      the end of a non-empty list. */
  function ClampIndex(i: nat, n: nat): (r: nat)
    ensures n > 0 ==> r < n
    ensures i < n || n == 0 ==> r == i
    ensures i >= n > 0 ==> r == n - 1
  {
    if i >= n && n > 0 then n - 1 else i
  }

  /** The scroll offset after making row `cursor` visible in a window of
      `visible` rows that started at `scroll`. When `visible` is 0 and the
      cursor is not above the window, the source computes `0 - 1` on an
      unsigned integer, so that case is excluded. */
  function ScrollFor(cursor: nat, scroll: nat, visible: nat): (r: nat)
    requires visible >= 1 || cursor < scroll
    ensures visible >= 1 ==> r <= cursor < r + visible
    ensures cursor < scroll ==> r == cursor
    ensures scroll <= cursor < scroll + visible ==> r == scroll
  {
    if cursor < scroll then cursor
    else if cursor >= scroll + visible then SaturatingSub(cursor, visible - 1)
    else scroll
  }

  function Dist(a: nat, b: nat): nat { if a <= b then b - a else a - b }

  /** The new offset moves the window as little as any offset that shows
      the cursor. */
  lemma ScrollForMinimal(cursor: nat, scroll: nat, visible: nat, s: nat)
    requires visible >= 1
    requires s <= cursor < s + visible
    ensures Dist(ScrollFor(cursor, scroll, visible), scroll) <= Dist(s, scroll)
  {
  }

  /** A node is open when it is `Expanded` or `Loading`. */
  predicate OpenAt(cs: seq<Comment>, p: Path)
  {
    LookupList(cs, p).Some? && (LookupList(cs, p).value.state.Expanded? || LookupList(cs, p).value.state.Loading?)
  }

  /** The ancestor-or-self of `path` at depth `d` (its first `d + 1`
      steps) is open. */
  predicate OpenAtDepth(cs: seq<Comment>, path: Path, d: nat)
    requires d < |path|
  {
    OpenAt(cs, path[..d + 1])
  }

  /** The deepest depth below `n` at which the ancestor-or-self of `path`
      is open. */
  function NearestOpen(cs: seq<Comment>, path: Path, n: nat): (r: Option<nat>)
    requires n <= |path|
    ensures r.Some? ==> r.value < n && OpenAtDepth(cs, path, r.value)
    ensures r.Some? ==> forall d :: r.value < d < n ==> !OpenAtDepth(cs, path, d)
    ensures r.None? ==> forall d :: 0 <= d < n ==> !OpenAtDepth(cs, path, d)
  {
    if n == 0 then None
    else if OpenAtDepth(cs, path, n - 1) then Some(n - 1)
    else NearestOpen(cs, path, n - 1)
  }

  /** For a path the tree resolves, every proper ancestor is `Expanded`, so
      the node collapsed is the node itself when it is open, else its
      parent; only a closed top-level node has no open ancestor. */
  lemma NearestOpenOfResolved(cs: seq<Comment>, path: Path)
    requires LookupList(cs, path).Some?
    ensures NearestOpen(cs, path, |path|) ==
              if OpenAt(cs, path) then Some(|path| - 1)
              else if |path| >= 2 then Some(|path| - 2)
              else None
  {
    assert path[..|path|] == path;
    if !OpenAt(cs, path) && |path| >= 2 {
      AncestorExpanded(cs, path, |path| - 1);
    }
  }

  class App {
    var view: View
    var storyType: StoryType
    var stories: seq<HNCLIItem>
    var selectedIndex: nat
    var storyScroll: nat
    var currentPage: nat
    var loading: bool
    var error: Option<string>
    var comments: seq<Comment>
    /** (path, copy) rows, rebuilt after every change to the tree. */
    var visibleComments: seq<Entry>
    var commentCursor: nat
    var commentScroll: nat
    var shouldQuit: bool
    var showHelp: bool
    var pageSize: nat
    var storyCache: map<(StoryType, nat), seq<HNCLIItem>>

    /** The page number is a `u32` that starts at 1 and never drops below,
        the page size a `u8`, and the visible list is the projection of
        the tree. */
    ghost predicate Valid()
      reads this`currentPage, this`pageSize, this`comments, this`visibleComments
    {
      && 1 <= currentPage <= U32Max
      && pageSize <= 255
      && visibleComments == Projection(comments)
    }

    /** `App::new`. */
    constructor ()
      ensures Valid()
      ensures view == Stories && storyType == Best && stories == []
      ensures selectedIndex == 0 && storyScroll == 0 && currentPage == 1
      ensures loading && error == None
      ensures comments == [] && visibleComments == [] && commentCursor == 0 && commentScroll == 0
      ensures !shouldQuit && !showHelp && pageSize == DefaultPageSize && storyCache == map[]
    {
      view := Stories;
      storyType := Best;
      stories := [];
      selectedIndex := 0;
      storyScroll := 0;
      currentPage := 1;
      loading := true;
      error := None;
      comments := [];
      visibleComments := [];
      commentCursor := 0;
      commentScroll := 0;
      shouldQuit := false;
      showHelp := false;
      pageSize := DefaultPageSize;
      storyCache := map[];
    }

    // === Story navigation ===

    /** `next_story`: one down, never past the last story. */
    method NextStory()
      modifies this`selectedIndex
      ensures selectedIndex == if |stories| > 0 && old(selectedIndex) < |stories| - 1
                               then old(selectedIndex) + 1 else old(selectedIndex)
      ensures old(selectedIndex) < |stories| ==> selectedIndex < |stories|
      ensures stories == [] ==> selectedIndex == old(selectedIndex)
    {
      if |stories| > 0 && selectedIndex < |stories| - 1 {
        selectedIndex := selectedIndex + 1;
      }
    }

    /** `prev_story`: one up, never below 0. */
    method PrevStory()
      modifies this`selectedIndex
      ensures selectedIndex == if old(selectedIndex) > 0 then old(selectedIndex) - 1 else 0
    {
      if selectedIndex > 0 {
        selectedIndex := selectedIndex - 1;
      }
    }

    /** `update_story_scroll`: keep the selected story inside the window of
        `viewportHeight - 4` rows. */
    method UpdateStoryScroll(viewportHeight: nat)
      requires viewportHeight > StoryChrome || selectedIndex < storyScroll
      modifies this`storyScroll
      ensures storyScroll == ScrollFor(selectedIndex, old(storyScroll), SaturatingSub(viewportHeight, StoryChrome))
      ensures viewportHeight > StoryChrome ==>
                storyScroll <= selectedIndex < storyScroll + (viewportHeight - StoryChrome)
    {
      var visibleItems := SaturatingSub(viewportHeight, StoryChrome);
      if selectedIndex < storyScroll {
        storyScroll := selectedIndex;
      } else if selectedIndex >= storyScroll + visibleItems {
        storyScroll := SaturatingSub(selectedIndex, visibleItems - 1);
      }
    }

    /** `next_page`. The page number is a `u32`, so the last page has no
        successor. */
    method NextPage()
      requires Valid() && currentPage < U32Max
      modifies this`currentPage, this`selectedIndex, this`storyScroll
      ensures Valid()
      ensures currentPage == old(currentPage) + 1 && selectedIndex == 0 && storyScroll == 0
    {
      currentPage := currentPage + 1;
      selectedIndex := 0;
      storyScroll := 0;
    }

    /** `prev_page`: nothing happens on page 1. */
    method PrevPage()
      requires Valid()
      modifies this`currentPage, this`selectedIndex, this`storyScroll
      ensures Valid()
      ensures old(currentPage) == 1 ==>
                currentPage == 1 && selectedIndex == old(selectedIndex) && storyScroll == old(storyScroll)
      ensures old(currentPage) > 1 ==>
                currentPage == old(currentPage) - 1 && selectedIndex == 0 && storyScroll == 0
    {
      if currentPage > 1 {
        currentPage := currentPage - 1;
        selectedIndex := 0;
        storyScroll := 0;
      }
    }

    /** `set_story_type`: a different kind starts again at page 1, row 0;
        the current kind changes nothing. */
    method SetStoryType(t: StoryType)
      requires Valid()
      modifies this`storyType, this`currentPage, this`selectedIndex, this`storyScroll
      ensures Valid()
      ensures storyType == t
      ensures old(storyType) == t ==>
                currentPage == old(currentPage) && selectedIndex == old(selectedIndex)
                && storyScroll == old(storyScroll)
      ensures old(storyType) != t ==> currentPage == 1 && selectedIndex == 0 && storyScroll == 0
    {
      if storyType != t {
        storyType := t;
        currentPage := 1;
        selectedIndex := 0;
        storyScroll := 0;
      }
    }

    /** `selected_story`. */
    function SelectedStory(): (r: Option<HNCLIItem>)
      reads this`stories, this`selectedIndex
      ensures r.Some? <==> selectedIndex < |stories|
      ensures r.Some? ==> r.value == stories[selectedIndex]
    {
      if selectedIndex < |stories| then Some(stories[selectedIndex]) else None
    }

    // === Comment navigation ===

    /** `next_comment`: one down, never past the last row. */
    method NextComment()
      modifies this`commentCursor
      ensures commentCursor == if |visibleComments| > 0 && old(commentCursor) < |visibleComments| - 1
                               then old(commentCursor) + 1 else old(commentCursor)
      ensures old(commentCursor) < |visibleComments| ==> commentCursor < |visibleComments|
    {
      if |visibleComments| > 0 && commentCursor < |visibleComments| - 1 {
        commentCursor := commentCursor + 1;
      }
    }

    /** `prev_comment`: one up, never below 0. */
    method PrevComment()
      modifies this`commentCursor
      ensures commentCursor == if old(commentCursor) > 0 then old(commentCursor) - 1 else 0
    {
      if commentCursor > 0 {
        commentCursor := commentCursor - 1;
      }
    }

    /** `first_comment`. */
    method FirstComment()
      modifies this`commentCursor
      ensures commentCursor == 0
    {
      commentCursor := 0;
    }

    /** `last_comment`: the last row, or no move when there are none. */
    method LastComment()
      modifies this`commentCursor
      ensures |visibleComments| > 0 ==> commentCursor == |visibleComments| - 1
      ensures |visibleComments| == 0 ==> commentCursor == old(commentCursor)
    {
      if |visibleComments| > 0 {
        commentCursor := |visibleComments| - 1;
      }
    }

    /** `update_comment_scroll`: the same window rule over visible rows,
        with 6 rows of chrome. */
    method UpdateCommentScroll(viewportHeight: nat)
      requires viewportHeight > CommentChrome || commentCursor < commentScroll
      modifies this`commentScroll
      ensures commentScroll == ScrollFor(commentCursor, old(commentScroll), SaturatingSub(viewportHeight, CommentChrome))
      ensures viewportHeight > CommentChrome ==>
                commentScroll <= commentCursor < commentScroll + (viewportHeight - CommentChrome)
    {
      var visibleItems := SaturatingSub(viewportHeight, CommentChrome);
      if commentCursor < commentScroll {
        commentScroll := commentCursor;
      } else if commentCursor >= commentScroll + visibleItems {
        commentScroll := SaturatingSub(commentCursor, visibleItems - 1);
      }
    }

    /** The row under the cursor, if there is one. */
    function SelectedEntry(): (r: Option<Entry>)
      reads this`visibleComments, this`commentCursor
      ensures r.Some? <==> commentCursor < |visibleComments|
      ensures r.Some? ==> r.value == visibleComments[commentCursor]
    {
      if commentCursor < |visibleComments| then Some(visibleComments[commentCursor]) else None
    }

    /** `get_comment_mut_by_path`: walks the path from the top-level list,
        stepping only into `Expanded` nodes. */
    method GetCommentByPath(path: Path) returns (r: Option<Comment>)
      ensures r == LookupList(comments, path)
    {
      if path == [] || path[0] >= |comments| {
        return None;
      }
      var current := comments[path[0]];
      var i := 1;
      while i < |path|
        invariant 1 <= i <= |path|
        invariant LookupList(comments, path) == LookupNode(current, path[i..])
      {
        assert path[i..][0] == path[i] && path[i..][1..] == path[i + 1..];
        match current.state {
          case Expanded(children) =>
            if path[i] >= |children| {
              return None;
            }
            current := children[path[i]];
          case _ =>
            return None;
        }
        i := i + 1;
      }
      assert path[i..] == [];
      return Some(current);
    }

    /** `collapse_current_thread`: from the cursor's own node outwards, the
        first node that is `Expanded` or `Loading` becomes `Collapsed`; the
        list is rebuilt and the cursor clamped into it. Without a row under
        the cursor, or without such a node, nothing changes. */
    method CollapseCurrentThread()
      requires Valid()
      modifies this`comments, this`visibleComments, this`commentCursor
      ensures Valid()
      ensures old(SelectedEntry()).None? ==>
                comments == old(comments) && commentCursor == old(commentCursor)
      ensures old(SelectedEntry()).Some? ==>
                var path := old(SelectedEntry()).value.path;
                var k := NearestOpen(old(comments), path, |path|);
                && (k.None? ==> comments == old(comments) && commentCursor == old(commentCursor))
                && (k.Some? ==>
                      && comments == SetStateAt(old(comments), path[..k.value + 1], Collapsed)
                      && commentCursor == ClampIndex(old(commentCursor), |visibleComments|)
                      && commentCursor < |visibleComments|)
    {
      if commentCursor >= |visibleComments| {
        return;
      }
      var path := visibleComments[commentCursor].path;
      ProjectionResolves(comments, commentCursor);
      var depth := |path|;
      while depth > 0
        invariant 0 <= depth <= |path|
        invariant NearestOpen(comments, path, depth) == NearestOpen(comments, path, |path|)
        invariant comments == old(comments) && visibleComments == old(visibleComments)
        invariant commentCursor == old(commentCursor)
      {
        depth := depth - 1;
        var node := GetCommentByPath(path[..depth + 1]);
        if node.Some? && (node.value.state.Expanded? || node.value.state.Loading?) {
          assert OpenAt(comments, path[..depth + 1]);
          assert comments != [] by { assert LookupList(comments, path[..depth + 1]).Some?; }
          comments := SetStateAt(comments, path[..depth + 1], Collapsed);
          RebuildVisibleComments();
          assert |visibleComments| > 0 by {
            assert |comments| > 0;
            assert visibleComments == Visit([] + [0], comments[0]) + VisitFrom([], comments, 1);
          }
          commentCursor := if commentCursor < SaturatingSub(|visibleComments|, 1)
                           then commentCursor else SaturatingSub(|visibleComments|, 1);
          return;
        }
      }
    }

    /** `update_comment_by_id`: applies `f` to the first node in pre-order
        with the id, searching only through `Expanded` nodes, and says
        whether there was one. */
    method UpdateCommentById(commentId: int, f: Comment -> Comment) returns (found: bool)
      modifies this`comments
      ensures (found, comments) == UpdateById(old(comments), commentId, f)
    {
      var i := 0;
      while i < |comments|
        invariant 0 <= i <= |comments|
        invariant comments == old(comments)
        invariant UpdateFrom(comments, i, commentId, f) == UpdateById(comments, commentId, f)
      {
        var hit, updated := UpdateCommentRecursive(comments[i], commentId, f);
        if hit {
          comments := comments[i := updated];
          return true;
        }
        i := i + 1;
      }
      return false;
    }

    /** `update_comment_recursive`. */
    static method UpdateCommentRecursive(c: Comment, targetId: int, f: Comment -> Comment)
      returns (found: bool, r: Comment)
      ensures (found, r) == UpdateNode(c, targetId, f)
      decreases c
    {
      if c.id == targetId {
        return true, f(c);
      }
      match c.state {
        case Expanded(children) =>
          var i := 0;
          while i < |children|
            invariant 0 <= i <= |children|
            invariant UpdateFrom(children, i, targetId, f) == UpdateFrom(children, 0, targetId, f)
          {
            var hit, child := UpdateCommentRecursive(children[i], targetId, f);
            if hit {
              return true, c.(state := Expanded(children[i := child]));
            }
            i := i + 1;
          }
          return false, c;
        case _ =>
          return false, c;
      }
    }

    /** `rebuild_visible_comments`: the visible list becomes the pre-order
        projection of the tree. */
    method RebuildVisibleComments()
      modifies this`visibleComments
      ensures visibleComments == Projection(comments)
    {
      visibleComments := [];
      var idx := 0;
      while idx < |comments|
        invariant 0 <= idx <= |comments|
        invariant visibleComments + VisitFrom([], comments, idx) == Projection(comments)
      {
        ghost var mid := visibleComments;
        assert [] + [idx] == [idx];
        VisitFromStep([], comments, idx);
        AddVisibleCommentRecursive([idx], comments[idx]);
        EntriesAssoc(mid, Visit([idx], comments[idx]), VisitFrom([], comments, idx + 1));
        idx := idx + 1;
      }
    }

    /** `add_visible_comment_recursive`: appends the visit of `c` at
        `path`. */
    method AddVisibleCommentRecursive(path: Path, c: Comment)
      modifies this`visibleComments
      ensures visibleComments == old(visibleComments) + Visit(path, c)
      decreases c
    {
      ghost var before := visibleComments;
      visibleComments := visibleComments + [Entry(path, c)];
      match c.state {
        case Expanded(children) =>
          VisitExpanded(path, c);
          EntriesAssoc(before, [Entry(path, c)], VisitFrom(path, children, 0));
          var childIdx := 0;
          while childIdx < |children|
            invariant 0 <= childIdx <= |children|
            invariant visibleComments + VisitFrom(path, children, childIdx) == before + Visit(path, c)
          {
            ghost var mid := visibleComments;
            VisitFromStep(path, children, childIdx);
            AddVisibleCommentRecursive(path + [childIdx], children[childIdx]);
            EntriesAssoc(mid, Visit(path + [childIdx], children[childIdx]), VisitFrom(path, children, childIdx + 1));
            childIdx := childIdx + 1;
          }
        case _ =>
      }
    }

    // === View management ===

    /** `view_comments`: switch to the story's comments, with an empty tree
        while they load. */
    method ViewComments(storyId: int, storyTitle: string, storyUrl: string)
      requires Valid()
      modifies this`view, this`comments, this`visibleComments, this`commentCursor, this`loading
      ensures Valid()
      ensures view == Comments(storyId, storyTitle, storyUrl)
      ensures comments == [] && visibleComments == [] && commentCursor == 0 && loading
    {
      view := Comments(storyId, storyTitle, storyUrl);
      comments := [];
      visibleComments := [];
      commentCursor := 0;
      loading := true;
    }

    /** `view_stories`: back to the list; the tree is dropped. */
    method ViewStories()
      requires Valid()
      modifies this`view, this`comments, this`visibleComments, this`commentCursor
      ensures Valid()
      ensures view == Stories && comments == [] && visibleComments == [] && commentCursor == 0
    {
      view := Stories;
      comments := [];
      visibleComments := [];
      commentCursor := 0;
    }

    /** `toggle_help`. */
    method ToggleHelp()
      modifies this`showHelp
      ensures showHelp == !old(showHelp)
    {
      showHelp := !showHelp;
    }

    // === State updates ===

    /** `set_stories`: show the list, clear loading and error, and pull the
        cursor back onto the last story when it is past the end of a
        non-empty list. */
    method SetStories(s: seq<HNCLIItem>)
      modifies this`stories, this`loading, this`error, this`selectedIndex
      ensures stories == s && !loading && error == None
      ensures selectedIndex == ClampIndex(old(selectedIndex), |s|)
    {
      stories := s;
      loading := false;
      error := None;
      if selectedIndex >= |stories| && |stories| > 0 {
        selectedIndex := |stories| - 1;
      }
    }

    /** `apply_stories_page`: the page is always cached; it is shown only
        when it is the page currently selected. */
    method ApplyStoriesPage(t: StoryType, page: nat, s: seq<HNCLIItem>)
      modifies this`storyCache, this`stories, this`loading, this`error, this`selectedIndex
      ensures storyCache == old(storyCache)[(t, page) := s]
      ensures (t, page) == (storyType, currentPage) ==>
                && stories == s && !loading && error == None
                && selectedIndex == ClampIndex(old(selectedIndex), |s|)
      ensures (t, page) != (storyType, currentPage) ==>
                && stories == old(stories) && loading == old(loading) && error == old(error)
                && selectedIndex == old(selectedIndex)
    {
      storyCache := storyCache[(t, page) := s];
      if storyType == t && currentPage == page {
        SetStories(s);
      }
    }

    /** `cached_stories`: the cached page for the current kind and page. */
    function CachedStories(): (r: Option<seq<HNCLIItem>>)
      reads this`storyCache, this`storyType, this`currentPage
      ensures r.Some? <==> (storyType, currentPage) in storyCache
      ensures r.Some? ==> r.value == storyCache[(storyType, currentPage)]
    {
      if (storyType, currentPage) in storyCache then Some(storyCache[(storyType, currentPage)]) else None
    }

    /** `set_comments`: a new tree, its projection, loading and error cleared. */
    method SetComments(cs: seq<Comment>)
      requires Valid()
      modifies this`comments, this`visibleComments, this`loading, this`error
      ensures Valid()
      ensures comments == cs && visibleComments == Projection(cs) && !loading && error == None
    {
      comments := cs;
      RebuildVisibleComments();
      loading := false;
      error := None;
    }

    /** `set_error`. */
    method SetError(message: string)
      modifies this`error, this`loading
      ensures error == Some(message) && !loading
    {
      error := Some(message);
      loading := false;
    }

    /** `clear_error`. */
    method ClearError()
      modifies this`error
      ensures error == None
    {
      error := None;
    }

    /** `set_loading`: starting to load also clears the error. */
    method SetLoading(isLoading: bool)
      modifies this`loading, this`error
      ensures loading == isLoading
      ensures error == if isLoading then None else old(error)
    {
      loading := isLoading;
      if isLoading {
        error := None;
      }
    }
  }
}

/** The event loop's handlers from src/main.rs: what a key action or a
    finished fetch does to the application state. Background work is not
    started here; each handler returns the `Effect` it would spawn (a fetch
    whose answer comes back later as an `AppMessage`, or opening a link). */
module Dispatch {
  import opened Wrappers
  import opened CommentTree
  import opened AppState
  import Event

  /** Work the handlers hand to the runtime. */
  datatype Effect =
    | NoEffect
    | FetchStoriesPage(kind: StoryType, pageSize: nat, page: nat)
    | FetchTopLevelComments(storyId: int)
    | FetchCommentChildren(commentId: int, ids: seq<int>, depth: nat)
    | OpenInBrowser(url: string)

  /** What finished background work sends back. A failure carries its
      error's message. */
  datatype AppMessage =
    | StoriesLoaded(storyType: StoryType, page: nat, stories: Result<seq<HNCLIItem>>)
    | CommentsLoaded(comments: Result<seq<Comment>>)
    | CommentChildrenLoaded(commentId: int, children: Result<seq<Comment>>)

  const StoriesErrorPrefix: string := "Failed to load stories: "
  const CommentsErrorPrefix: string := "Failed to load comments: "
  const ChildrenErrorPrefix: string := "Failed to load comment children: "

  // ---------------------------------------------------------------------
  // The expand / collapse state machine

  /** What ToggleExpand does to the selected node: its new state and the
      work it starts. A collapsed node with child ids starts loading them
      one level deeper; an expanded one collapses and keeps its ids; a
      loading node, and a collapsed one without children, stay as they are. */
  function ToggleTransition(c: Comment): (r: (CommentState, Effect))
    ensures r.1.FetchCommentChildren? <==> c.state.Collapsed? && |c.childIds| > 0
    ensures r.1.FetchCommentChildren? ==>
              r == (Loading, FetchCommentChildren(c.id, c.childIds, c.depth + 1))
    ensures c.state.Expanded? ==> r == (Collapsed, NoEffect)
    ensures c.state.Loading? || (c.state.Collapsed? && c.childIds == []) ==> r == (c.state, NoEffect)
    ensures !r.1.FetchCommentChildren? ==> r.1 == NoEffect
  {
    match c.state
    case Collapsed =>
      if |c.childIds| > 0 then (Loading, FetchCommentChildren(c.id, c.childIds, c.depth + 1))
      else (Collapsed, NoEffect)
    case Expanded(_) => (Collapsed, NoEffect)
    case Loading => (Loading, NoEffect)
  }

  /** Collapsing keeps the child ids, so expanding again fetches the same
      children, one level deeper, for the same node. */
  lemma CollapseThenExpandRefetches(c: Comment)
    requires c.state.Expanded? && |c.childIds| > 0
    ensures var collapsed := c.(state := ToggleTransition(c).0);
            && collapsed.childIds == c.childIds
            && ToggleTransition(collapsed) ==
                 (Loading, FetchCommentChildren(c.id, c.childIds, c.depth + 1))
  {
  }

  /** The tree and effect a ToggleExpand leaves, given the row the cursor
      was on and the tree before. */
  ghost predicate Toggled(selected: Option<Entry>, before: seq<Comment>, after: seq<Comment>, effect: Effect)
  {
    match selected
    case None => after == before && effect == NoEffect
    case Some(e) =>
      && LookupList(before, e.path) == Some(e.node)
      && after == SetStateAt(before, e.path, ToggleTransition(e.node).0)
      && effect == ToggleTransition(e.node).1
  }

  /** The `ToggleExpand` arm of `handle_comment_action`: the state of the
      node under the cursor is written back through its path and the visible
      list rebuilt. */
  method ToggleExpand(app: App) returns (effect: Effect)
    requires app.Valid()
    modifies app`comments, app`visibleComments
    ensures app.Valid()
    ensures Toggled(old(app.SelectedEntry()), old(app.comments), app.comments, effect)
  {
    effect := NoEffect;
    if app.commentCursor >= |app.visibleComments| {
      return;
    }
    var path := app.visibleComments[app.commentCursor].path;
    ProjectionResolves(app.comments, app.commentCursor);
    var node := app.GetCommentByPath(path);
    var c := node.value;
    match c.state {
      case Collapsed =>
        if |c.childIds| > 0 {
          app.comments := SetStateAt(app.comments, path, Loading);
          app.RebuildVisibleComments();
          effect := FetchCommentChildren(c.id, c.childIds, c.depth + 1);
        } else {
          SetStateAtSame(app.comments, path);
        }
      case Expanded(_) =>
        app.comments := SetStateAt(app.comments, path, Collapsed);
        app.RebuildVisibleComments();
      case Loading =>
        SetStateAtSame(app.comments, path);
    }
  }

  // ---------------------------------------------------------------------
  // Loading stories

  /** `request_stories`: a forced refresh drops the cached page first; a
      cached page is shown at once; otherwise loading starts and the page is
      fetched. */
  method RequestStories(app: App, forceRefresh: bool) returns (effect: Effect)
    modifies app`storyCache, app`stories, app`loading, app`error, app`selectedIndex
    ensures var key := (app.storyType, app.currentPage);
            && app.storyCache == (if forceRefresh then old(app.storyCache) - {key} else old(app.storyCache))
            && (!forceRefresh && key in old(app.storyCache) ==>
                  && effect == NoEffect
                  && app.stories == old(app.storyCache)[key] && !app.loading && app.error == None
                  && app.selectedIndex == ClampIndex(old(app.selectedIndex), |app.stories|))
            && (forceRefresh || key !in old(app.storyCache) ==>
                  && effect == FetchStoriesPage(app.storyType, app.pageSize, app.currentPage)
                  && app.loading && app.error == None
                  && app.stories == old(app.stories) && app.selectedIndex == old(app.selectedIndex))
  {
    if forceRefresh {
      app.storyCache := app.storyCache - {(app.storyType, app.currentPage)};
    }
    if !forceRefresh {
      var cached := app.CachedStories();
      if cached.Some? {
        app.SetStories(cached.value);
        return NoEffect;
      }
    }
    app.SetLoading(true);
    effect := FetchStoriesPage(app.storyType, app.pageSize, app.currentPage);
  }

  /** The outcome of a `request_stories` as the new state shows it: either
      the current page came from the cache and is on screen, or it is being
      fetched. */
  ghost predicate PageRequested(app: App, effect: Effect)
    reads app
  {
    var key := (app.storyType, app.currentPage);
    && (effect == NoEffect ==> key in app.storyCache && app.stories == app.storyCache[key] && !app.loading)
    && (effect != NoEffect ==>
          && effect == FetchStoriesPage(app.storyType, app.pageSize, app.currentPage)
          && app.loading && app.error == None)
  }

  /** The story actions that end in `request_stories`. */
  predicate RequestsPage(action: Event.StoryAction)
  {
    action.NextPage? || action.PrevPage? || action.SetType? || action.Refresh?
  }

  /** Whether a story action leaves the page being viewed for another page
      or kind, which puts the selection and the scroll back at the top:
      always for the next page, for the previous page unless already on
      page 1, and for a kind other than the current one. */
  predicate MovesPage(action: Event.StoryAction, page: nat, kind: StoryType)
  {
    action.NextPage? || (action.PrevPage? && page > 1) || (action.SetType? && action.kind != kind)
  }

  /** The three arms of `handle_story_action` that move to another page or
      kind (`next_page`, `prev_page`, `set_story_type`) and then call
      `request_stories` without forcing a refresh. */
  method ChangePage(app: App, action: Event.StoryAction) returns (effect: Effect)
    requires app.Valid()
    requires action.NextPage? || action.PrevPage? || action.SetType?
    requires action.NextPage? ==> app.currentPage < U32Max
    modifies app`storyType, app`currentPage, app`selectedIndex, app`storyScroll
    modifies app`storyCache, app`stories, app`loading, app`error
    ensures app.Valid()
    ensures app.storyType == if action.SetType? then action.kind else old(app.storyType)
    ensures action.NextPage? ==> app.currentPage == old(app.currentPage) + 1
    ensures action.PrevPage? ==> app.currentPage == if old(app.currentPage) > 1 then old(app.currentPage) - 1 else 1
    ensures action.SetType? ==>
              app.currentPage == if action.kind != old(app.storyType) then 1 else old(app.currentPage)
    ensures MovesPage(action, old(app.currentPage), old(app.storyType)) ==>
              app.selectedIndex == 0 && app.storyScroll == 0
    ensures !MovesPage(action, old(app.currentPage), old(app.storyType)) ==>
              && app.storyScroll == old(app.storyScroll)
              && app.selectedIndex ==
                   if effect == NoEffect then ClampIndex(old(app.selectedIndex), |app.stories|) else old(app.selectedIndex)
    ensures PageRequested(app, effect)
    ensures effect != NoEffect ==> app.stories == old(app.stories)
    ensures effect == NoEffect ==> app.error == None
    ensures app.storyCache == old(app.storyCache)
    ensures effect == NoEffect <==> (app.storyType, app.currentPage) in old(app.storyCache)
  {
    if action.NextPage? {
      app.NextPage();
    } else if action.PrevPage? {
      app.PrevPage();
    } else {
      app.SetStoryType(action.kind);
    }
    effect := RequestStories(app, false);
  }

  /** `handle_story_action`. */
  method HandleStoryAction(app: App, action: Event.StoryAction) returns (effect: Effect)
    requires app.Valid()
    requires action.NextPage? ==> app.currentPage < U32Max
    modifies app`view, app`storyType, app`currentPage, app`selectedIndex, app`storyScroll
    modifies app`storyCache, app`stories, app`loading, app`error
    modifies app`comments, app`visibleComments, app`commentCursor, app`showHelp, app`shouldQuit
    ensures app.Valid()
    // The page, the kind, the scroll and the selection.
    ensures app.storyType == if action.SetType? then action.kind else old(app.storyType)
    ensures action.NextPage? ==> app.currentPage == old(app.currentPage) + 1
    ensures action.PrevPage? ==> app.currentPage == if old(app.currentPage) > 1 then old(app.currentPage) - 1 else 1
    ensures action.SetType? ==>
              app.currentPage == if action.kind != old(app.storyType) then 1 else old(app.currentPage)
    ensures !action.NextPage? && !action.PrevPage? && !action.SetType? ==> app.currentPage == old(app.currentPage)
    ensures MovesPage(action, old(app.currentPage), old(app.storyType)) ==>
              app.selectedIndex == 0 && app.storyScroll == 0
    ensures !MovesPage(action, old(app.currentPage), old(app.storyType)) ==> app.storyScroll == old(app.storyScroll)
    ensures RequestsPage(action) && !MovesPage(action, old(app.currentPage), old(app.storyType)) ==>
              app.selectedIndex ==
                if effect == NoEffect then ClampIndex(old(app.selectedIndex), |app.stories|) else old(app.selectedIndex)
    ensures action.NextStory? ==>
              app.selectedIndex == if |app.stories| > 0 && old(app.selectedIndex) < |app.stories| - 1
                                   then old(app.selectedIndex) + 1 else old(app.selectedIndex)
    ensures action.PrevStory? ==>
              app.selectedIndex == if old(app.selectedIndex) > 0 then old(app.selectedIndex) - 1 else 0
    ensures !RequestsPage(action) && !action.NextStory? && !action.PrevStory? ==>
              app.selectedIndex == old(app.selectedIndex)
    // The page request.
    ensures RequestsPage(action) ==> PageRequested(app, effect)
    ensures RequestsPage(action) && effect != NoEffect ==> app.stories == old(app.stories)
    ensures RequestsPage(action) && effect == NoEffect ==> app.error == None
    ensures action.NextPage? || action.PrevPage? || action.SetType? ==>
              app.storyCache == old(app.storyCache)
              && (effect == NoEffect <==> (app.storyType, app.currentPage) in old(app.storyCache))
    ensures action.Refresh? ==>
              && app.storyCache == old(app.storyCache) - {(app.storyType, app.currentPage)}
              && effect == FetchStoriesPage(app.storyType, app.pageSize, app.currentPage)
    ensures !RequestsPage(action) ==>
              && app.storyCache == old(app.storyCache) && app.stories == old(app.stories)
              && app.error == old(app.error)
              && app.loading == (old(app.loading) || (action.ViewComments? && old(app.SelectedStory()).Some?))
    // The selected story.
    ensures action.OpenUrl? ==>
              effect == match old(app.SelectedStory())
                        case Some(s) => OpenInBrowser(s.url)
                        case None => NoEffect
    ensures action.ViewComments? ==>
              match old(app.SelectedStory())
              case Some(s) =>
                && effect == FetchTopLevelComments(s.id)
                && app.view == Comments(s.id, s.title, s.url)
                && app.comments == [] && app.visibleComments == [] && app.commentCursor == 0
              case None => effect == NoEffect
    ensures !(action.ViewComments? && old(app.SelectedStory()).Some?) ==>
              && app.view == old(app.view) && app.comments == old(app.comments)
              && app.visibleComments == old(app.visibleComments) && app.commentCursor == old(app.commentCursor)
    ensures action.NextStory? || action.PrevStory? || action.ToggleHelp? || action.Quit? || action.NoAction? ==>
              effect == NoEffect
    // The flags.
    ensures app.shouldQuit == (old(app.shouldQuit) || action.Quit?)
    ensures app.showHelp == (old(app.showHelp) != action.ToggleHelp?)
  {
    effect := NoEffect;
    match action {
      case NextStory => app.NextStory();
      case PrevStory => app.PrevStory();
      case NextPage | PrevPage | SetType(_) =>
        effect := ChangePage(app, action);
      case OpenUrl =>
        var story := app.SelectedStory();
        if story.Some? {
          effect := OpenInBrowser(story.value.url);
        }
      case ViewComments =>
        var story := app.SelectedStory();
        if story.Some? {
          app.ViewComments(story.value.id, story.value.title, story.value.url);
          effect := FetchTopLevelComments(story.value.id);
        }
      case Refresh =>
        effect := RequestStories(app, true);
      case ToggleHelp => app.ToggleHelp();
      case Quit => app.shouldQuit := true;
      case NoAction =>
    }
  }

  // ---------------------------------------------------------------------
  // Comment actions

  /** `handle_comment_action`, for every action but the sibling and parent
      moves, whose `App` methods are not part of this model. */
  method HandleCommentAction(app: App, action: Event.CommentAction) returns (effect: Effect)
    requires app.Valid()
    requires !action.NextSibling? && !action.PrevSibling? && !action.Parent?
    modifies app`comments, app`visibleComments, app`commentCursor, app`showHelp, app`view
    ensures app.Valid()
    ensures action.ToggleExpand? ==>
              Toggled(old(app.SelectedEntry()), old(app.comments), app.comments, effect)
    ensures action.OpenStoryUrl? ==>
              effect == match old(app.view)
                        case Comments(_, _, url) => OpenInBrowser(url)
                        case Stories => NoEffect
    ensures !action.ToggleExpand? && !action.OpenStoryUrl? ==> effect == NoEffect
    ensures action.Back? ==>
              app.view == Stories && app.comments == [] && app.visibleComments == [] && app.commentCursor == 0
    ensures action.CollapseThread? ==>
              match old(app.SelectedEntry())
              case None => app.comments == old(app.comments) && app.commentCursor == old(app.commentCursor)
              case Some(row) =>
                var k := NearestOpen(old(app.comments), row.path, |row.path|);
                && (k.None? ==> app.comments == old(app.comments) && app.commentCursor == old(app.commentCursor))
                && (k.Some? ==>
                      && app.comments == SetStateAt(old(app.comments), row.path[..k.value + 1], Collapsed)
                      && app.commentCursor == ClampIndex(old(app.commentCursor), |app.visibleComments|)
                      && app.commentCursor < |app.visibleComments|)
    ensures action.NextComment? ==>
              app.commentCursor == if |app.visibleComments| > 0 && old(app.commentCursor) < |app.visibleComments| - 1
                                   then old(app.commentCursor) + 1 else old(app.commentCursor)
    ensures action.PrevComment? ==>
              app.commentCursor == if old(app.commentCursor) > 0 then old(app.commentCursor) - 1 else 0
    ensures action.FirstComment? ==> app.commentCursor == 0
    ensures action.LastComment? ==>
              app.commentCursor == if |app.visibleComments| > 0 then |app.visibleComments| - 1 else old(app.commentCursor)
    ensures action.ToggleExpand? || action.OpenStoryUrl? || action.ToggleCommentHelp? || action.NoCommentAction? ==>
              app.commentCursor == old(app.commentCursor)
    ensures !action.Back? ==> app.view == old(app.view)
    ensures !action.ToggleExpand? && !action.CollapseThread? && !action.Back? ==>
              app.comments == old(app.comments)
    ensures !action.ToggleExpand? && !action.CollapseThread? && !action.Back? ==>
              app.visibleComments == old(app.visibleComments)
    ensures app.showHelp == (old(app.showHelp) != action.ToggleCommentHelp?)
  {
    effect := NoEffect;
    match action {
      case NextComment => app.NextComment();
      case PrevComment => app.PrevComment();
      case FirstComment => app.FirstComment();
      case LastComment => app.LastComment();
      case ToggleExpand =>
        effect := ToggleExpand(app);
      case CollapseThread => app.CollapseCurrentThread();
      case OpenStoryUrl =>
        if app.view.Comments? {
          effect := OpenInBrowser(app.view.storyUrl);
        }
      case ToggleCommentHelp => app.ToggleHelp();
      case Back => app.ViewStories();
      case NoCommentAction =>
    }
  }

  // ---------------------------------------------------------------------
  // Messages from background work

  /** The updater for loaded children: the node becomes `Expanded` with
      them. */
  function ExpandWith(children: seq<Comment>): (f: Comment -> Comment)
    ensures forall c: Comment :: SameFields(f(c), c) && f(c).state == Expanded(children)
  {
    (c: Comment) => c.(state := Expanded(children))
  }

  /** The updater for a failed load: a `Loading` node goes back to
      `Collapsed`; any other node is left alone. */
  function RevertLoading(c: Comment): (r: Comment)
    ensures SameFields(r, c)
    ensures r.state == if c.state.Loading? then Collapsed else c.state
  {
    if c.state.Loading? then c.(state := Collapsed) else c
  }

  /** `handle_app_message`. A stories page is always cached but only shown,
      or reported as failed, when it is still the page being looked at. */
  method HandleAppMessage(app: App, msg: AppMessage)
    requires app.Valid()
    modifies app`storyCache, app`stories, app`loading, app`error, app`selectedIndex
    modifies app`comments, app`visibleComments
    ensures app.Valid()
    ensures msg.StoriesLoaded? ==>
              var current := (msg.storyType, msg.page) == (app.storyType, app.currentPage);
              match msg.stories
              case Ok(s) =>
                && app.storyCache == old(app.storyCache)[(msg.storyType, msg.page) := s]
                && (current ==>
                      && app.stories == s && !app.loading && app.error == None
                      && app.selectedIndex == ClampIndex(old(app.selectedIndex), |s|))
                && (!current ==>
                      && app.stories == old(app.stories) && app.loading == old(app.loading)
                      && app.error == old(app.error) && app.selectedIndex == old(app.selectedIndex))
              case Err(m) =>
                && app.storyCache == old(app.storyCache)
                && app.selectedIndex == old(app.selectedIndex)
                && (current ==>
                      app.stories == [] && !app.loading && app.error == Some(StoriesErrorPrefix + m))
                && (!current ==>
                      && app.stories == old(app.stories) && app.loading == old(app.loading)
                      && app.error == old(app.error))
    ensures msg.StoriesLoaded? ==> app.comments == old(app.comments)
    ensures !msg.StoriesLoaded? ==>
              && app.storyCache == old(app.storyCache) && app.stories == old(app.stories)
              && app.selectedIndex == old(app.selectedIndex) && !app.loading
    ensures msg.CommentsLoaded? ==>
              match msg.comments
              case Ok(cs) => app.comments == cs && app.error == None
              case Err(m) => app.comments == old(app.comments) && app.error == Some(CommentsErrorPrefix + m)
    ensures msg.CommentChildrenLoaded? ==>
              match msg.children
              case Ok(ch) =>
                && app.comments == UpdateById(old(app.comments), msg.commentId, ExpandWith(ch)).1
                && app.error == old(app.error)
              case Err(m) =>
                && app.comments == UpdateById(old(app.comments), msg.commentId, RevertLoading).1
                && app.error == Some(ChildrenErrorPrefix + m)
  {
    match msg {
      case StoriesLoaded(storyType, page, result) =>
        match result {
          case Ok(s) =>
            app.ApplyStoriesPage(storyType, page, s);
          case Err(m) =>
            if app.storyType == storyType && app.currentPage == page {
              app.SetError(StoriesErrorPrefix + m);
              app.stories := [];
            }
        }
      case CommentsLoaded(result) =>
        match result {
          case Ok(cs) => app.SetComments(cs);
          case Err(m) => app.SetError(CommentsErrorPrefix + m);
        }
      case CommentChildrenLoaded(commentId, result) =>
        match result {
          case Ok(ch) =>
            var _ := app.UpdateCommentById(commentId, ExpandWith(ch));
            app.RebuildVisibleComments();
            app.SetLoading(false);
          case Err(m) =>
            app.SetError(ChildrenErrorPrefix + m);
            var _ := app.UpdateCommentById(commentId, RevertLoading);
            app.RebuildVisibleComments();
        }
    }
  }

  /** A reply about children acts through the first visible node with the
      id: loaded children expand it (whatever its state), a failure sets it
      to what `RevertLoading` gives; with no such node the tree is
      unchanged. */
  lemma ChildrenReplyFirstMatch(cs: seq<Comment>, id: int, children: seq<Comment>)
    ensures var es := Projection(cs);
            var k := FirstWithId(es, id);
            && (UpdateById(cs, id, ExpandWith(children)).0 <==> k.Some?)
            && (UpdateById(cs, id, RevertLoading).0 <==> k.Some?)
            && (k.None? ==>
                  UpdateById(cs, id, ExpandWith(children)).1 == cs && UpdateById(cs, id, RevertLoading).1 == cs)
            && (k.Some? ==>
                  && LookupList(cs, es[k.value].path) == Some(es[k.value].node)
                  && UpdateById(cs, id, ExpandWith(children)).1
                     == SetStateAt(cs, es[k.value].path, Expanded(children))
                  && UpdateById(cs, id, RevertLoading).1
                     == SetStateAt(cs, es[k.value].path, RevertLoading(es[k.value].node).state))
  {
    UpdateByIdFirstMatch(cs, id, ExpandWith(children));
    UpdateByIdFirstMatch(cs, id, RevertLoading);
    var es := Projection(cs);
    var k := FirstWithId(es, id);
    if k.Some? {
      var n := es[k.value].node;
      assert RevertLoading(n) == n.(state := RevertLoading(n).state);
    }
  }

  /** Setting a node to a state that is not `Expanded` (as every toggle
      and every failed reply does) removes exactly the nodes below it, and
      every node that remains keeps its id and its child ids. */
  lemma SetStateKeepsChildIds(cs: seq<Comment>, p: Path, s: CommentState, q: Path)
    requires LookupList(cs, p).Some? && LookupList(cs, q).Some? && !s.Expanded?
    ensures LookupList(SetStateAt(cs, p, s), q).Some? <==> !(IsPrefix(p, q) && q != p)
    ensures LookupList(SetStateAt(cs, p, s), q).Some? ==>
              && LookupList(SetStateAt(cs, p, s), q).value.id == LookupList(cs, q).value.id
              && LookupList(SetStateAt(cs, p, s), q).value.childIds == LookupList(cs, q).value.childIds
  {
    SetStateAtLookup(cs, p, s, q);
    if IsPrefix(p, q) && q != p {
      var n := LookupList(cs, p).value.(state := s);
      ReplaceListLookup(cs, p, n, q);
      assert q[|p|..] != [];
    }
  }

  /** No two rows of the visible list hold nodes with the same id. */
  ghost predicate UniqueIds(cs: seq<Comment>)
  {
    forall a, b :: 0 <= a < b < |Projection(cs)| ==> Projection(cs)[a].node.id != Projection(cs)[b].node.id
  }

  /** When ids are unique, the first match of the id is the node at `p`
      itself. */
  lemma FirstMatchIsAt(cs: seq<Comment>, p: Path)
    requires LookupList(cs, p).Some? && UniqueIds(cs)
    ensures var es := Projection(cs);
            var k := FirstWithId(es, LookupList(cs, p).value.id);
            k.Some? && es[k.value] == Entry(p, LookupList(cs, p).value)
  {
    var n := LookupList(cs, p).value;
    var es := Projection(cs);
    ProjectionMembers(cs, Entry(p, n));
    var j :| 0 <= j < |es| && es[j] == Entry(p, n);
    var k := FirstWithId(es, n.id);
    assert k.Some? && k.value <= j;
  }

  /** Loaded children for the node at `p` expand exactly that node, as long
      as no other visible node shares its id. */
  lemma ChildrenLoadedAt(cs: seq<Comment>, p: Path, children: seq<Comment>)
    requires LookupList(cs, p).Some? && UniqueIds(cs)
    ensures UpdateById(cs, LookupList(cs, p).value.id, ExpandWith(children)) ==
              (true, SetStateAt(cs, p, Expanded(children)))
  {
    var n := LookupList(cs, p).value;
    UpdateByIdFirstMatch(cs, n.id, ExpandWith(children));
    FirstMatchIsAt(cs, p);
  }

  /** A failed load for the node at `p` puts it back to `Collapsed` if it is
      `Loading` and otherwise leaves the tree unchanged. */
  lemma ChildrenFailedAt(cs: seq<Comment>, p: Path)
    requires LookupList(cs, p).Some? && UniqueIds(cs)
    ensures var n := LookupList(cs, p).value;
            && (n.state.Loading? ==> UpdateById(cs, n.id, RevertLoading) == (true, SetStateAt(cs, p, Collapsed)))
            && (!n.state.Loading? ==> UpdateById(cs, n.id, RevertLoading) == (true, cs))
  {
    var n := LookupList(cs, p).value;
    UpdateByIdFirstMatch(cs, n.id, RevertLoading);
    FirstMatchIsAt(cs, p);
    if !n.state.Loading? {
      ReplaceListSame(cs, p, n);
    }
  }

  /** A reply for an id no reachable node carries leaves the tree as it
      was, whether it succeeded or failed. */
  lemma UnknownIdLeavesTree(cs: seq<Comment>, id: int, children: seq<Comment>)
    requires forall p :: LookupList(cs, p).Some? ==> LookupList(cs, p).value.id != id
    ensures UpdateById(cs, id, ExpandWith(children)) == (false, cs)
    ensures UpdateById(cs, id, RevertLoading) == (false, cs)
  {
    UpdateByIdFoundIffReachable(cs, id, ExpandWith(children));
    UpdateByIdFirstMatch(cs, id, ExpandWith(children));
    UpdateByIdFoundIffReachable(cs, id, RevertLoading);
    UpdateByIdFirstMatch(cs, id, RevertLoading);
  }
}

# hackernews-cli: a Dafny model of the application state engine

hackernews-cli is a terminal client for Hacker News. This project models its core and proves properties of that model:

- **Story list.** The `App` state holds the story list with its cursor, a scroll window, the page number, the story kind (best, new or top) and a page cache keyed by (kind, page).
- **Comment tree.** Each node is `Collapsed`, `Loading` or `Expanded` with its children, and keeps its list of child ids in every state. The tree is flattened into a visible list of (path, copy) rows, which the comment cursor moves over.
- **Event loop handlers.** These apply a key action or a finished background fetch to the state. Starting a background task or opening a browser becomes a returned `Effect` value, so every handler is a sequential method.
- **Pure helpers:**
  - the two key tables;
  - the story URL fallback, the "N units ago" labels and the three-line text form of a story;
  - the tree guides drawn beside a comment (`│ `, `├─`, `└─`), their colour, and the reply-count line.

Modules, one per source file or concern:

| module | file | models |
|---|---|---|
| `Wrappers` | wrappers.dfy | `Option` and `Result` (an error is its message) |
| `Format` | format.dfy | decimal formatting of integers (`format!("{}")`) and splitting text at `'\n'` |
| `TimeUtils` | time_utils.dfy | src/time_utils.rs, and the identical `time_ago` of src/lib.rs |
| `Items` | items.dfy | src/lib.rs: the item records, `get_item_url`, `to_hn_cli_item`, `Display` |
| `Event` | event.dfy | src/event.rs: the key tables |
| `CommentTree` | comment_tree.dfy | the tree of src/app.rs as values: path lookup, write-back through a path, the pre-order projection, update by id |
| `AppState` | app_state.dfy | src/app.rs: `StoryType`, `View` and the `App` class with its methods |
| `Dispatch` | dispatch.dfy | src/main.rs: `handle_app_message`, `request_stories`, `handle_story_action`, `handle_comment_action` |
| `CommentsView` | comments_view.dfy | src/ui/comments.rs: `branch_guides`, `guides_to_prefix`, `depth_color`, the reply line; `spinner_frame` of src/ui/widgets.rs |

How the source is mapped:

- **Tree and writes.** The comment tree is a datatype, and a visible row is `Entry(path, node)`. Where the source writes a node's `state` through the `&mut` reference that a path lookup returns, the model writes the `comments` field with `SetStateAt`. That is the tree with the node at the path replaced.
- **`App` class.** `App` is a class and its methods change only the fields their `modifies` clauses name. `App.Valid()` holds between any two handler calls. It says three things:
  - the page number is a `u32` of at least 1;
  - the page size fits a `u8`;
  - the visible list is the projection of the tree.
- **Specification functions.** Each method is proved against a function of the model. `GetCommentByPath` is proved against `LookupList`, `RebuildVisibleComments` against `Projection`, `UpdateCommentById` against `UpdateById`, `BranchGuides` against `GuidesFrom` and `GuidesToPrefix` against `Prefix`. The lemmas then say what those functions mean:
  - a row is in the projection exactly when its path reaches its node;
  - the rows are in strict pre-order;
  - an update by id hits exactly the first reachable match.
- **Clock and date.** The current clock reading `now` and the formatted date are parameters.
- **Integers.** They are unbounded. Where a `u32` or unsigned subtraction matters, a precondition says so; see below.

Where the code and its description disagree, the model follows the code:

- **Comment scroll.** It counts visible entries with 6 rows of chrome, not rendered lines. Neither scroll offset is clamped against the end of the list.
- **Stale `HNCLIItem`.** The `HNCLIItem` declared in src/lib.rs:25-33 has no `id`. The one that src/app.rs and src/main.rs use has one (src/main.rs:155), so the model's `HNCLIItem` has an `id`.
- **Cursor range.** The comment cursor is not kept in range in general. Only `collapse_current_thread` clamps it.
  - `set_comments` and a children reply do not clamp it.
  - Neither does a toggle that hides rows.

## Model

| member | source | states |
|---|---|---|
| `Format.NatToString` | src/lib.rs:38-46 | decimal text of a natural number: non-empty, only digits, no leading zero, one digit exactly below 10 |
| `Format.ParseNatToString` | src/lib.rs:38-46 | the decimal text reads back as the number it was made from |
| `Format.NatToStringInjective` | src/lib.rs:38-46 | different numbers never print the same |
| `Format.IntToString` | src/lib.rs:38-46 | a negative number prints as `-` and its magnitude, any other as its decimal text; the text never holds a line break |
| `Format.SplitLines` | src/lib.rs:47 | splitting at `'\n'` gives at least one line, none containing a break |
| `Format.SplitLinesNoBreak` | src/lib.rs:47 | text without a break is one line |
| `Format.SplitLinesCons` | src/lib.rs:47 | `a + "\n" + b` splits into `a` followed by the lines of `b` |
| `TimeUtils.UnitLength` | src/time_utils.rs:11-15 | each unit is at least one second: 1, 60, 3600, 86400, 604800 |
| `TimeUtils.Bucket` | src/time_utils.rs:10-16 | seconds exactly for 0..=59, minutes for 60..=3599, hours for 3600..=86399, days for 86400..=604799, weeks from 604800; the amount is the difference divided by the unit, rounded down |
| `TimeUtils.BucketAmountRange` | src/time_utils.rs:10-16 | minutes, hours and days show 1..59, 1..23 and 1..6, and weeks at least 1 |
| `TimeUtils.TimeAgo` | src/time_utils.rs:8-17 | the label is never empty, starts with a digit and ends in `" ago"` |
| `TimeUtils.TimeAgoReadsBack` | src/time_utils.rs:8-17 | the label starts with the amount's digits, which read back as the amount, followed by `" <unit> ago"` |
| `TimeUtils.TimeAgoJustNow` | src/lib.rs:166-169 | an event at the current second reads "0 seconds ago" |
| `TimeUtils.TimeAgoOneUnit` | src/lib.rs:166-174 | exactly 60, 3600, 86400 or 604800 seconds ago reads "1 minutes ago", "1 hours ago", "1 days ago" or "1 weeks ago" (the word stays plural) |
| `Items.GetItemUrl` | src/lib.rs:110-115 | the item's own url when it has one, else `https://news.ycombinator.com/item?id=` and the id |
| `Items.ToHnCliItem` | src/lib.rs:117-127 | id, title, author, score and comment count copied, url from `GetItemUrl`, age label from `time_ago` |
| `Items.CommentSegment` | src/lib.rs:37-40 | the comment segment is empty exactly when the count is absent |
| `Items.DisplayThreeLines` | src/lib.rs:35-48 | with single-line fields the text of `Items.Display` is exactly three lines: `<title> by <author>`, `[<score> points] - <comments> - <age>`, `-> <url>` |
| `Items.DisplayExample` | src/lib.rs:176-191 | the crate's own example renders as the expected three lines |
| `Items.SecondLineExample` | src/lib.rs:42-45 | the second line of that example |
| `Event.HandleStoriesKey` | src/event.rs:53-79 | each story action together with the exact keys that give it; every other key gives no action |
| `Event.HandleCommentsKey` | src/event.rs:82-108 | each comment action together with the exact keys that give it; every other key gives no action |
| `Event.KeysDependOnView` | src/event.rs:53-108 | `c`, Right and Left mean different actions in the two views |
| `CommentTree.CommentPredicates` | src/app.rs:70-89 | `has_children` is a non-zero `child_count`; expanded and loading exclude each other; the child count does not depend on the state |
| `CommentTree.LookupListCases` | src/app.rs:267-285 | no node for an empty path, an out-of-range index or a step through a node that is not `Expanded`; otherwise the walk goes on in the children |
| `CommentTree.LookupSnoc` | src/app.rs:267-285 | one more step below a node reached by a path resolves exactly when that node is `Expanded` and the index is in range |
| `CommentTree.AncestorExpanded` | src/app.rs:271-282 | every proper prefix of a resolving path resolves to an `Expanded` node |
| `CommentTree.ReplaceListLookup` | src/app.rs:257-285 | after writing a node at a path: below the path the new node is seen; where paths part nothing changed; ancestors stay `Expanded` with their other fields |
| `CommentTree.ReplaceListSame` | src/app.rs:257-285 | writing back the node a path holds changes nothing |
| `CommentTree.SetStateAtSame` | src/main.rs:227-256 | setting a node to the state it has changes nothing |
| `CommentTree.SetStateAtLookup` | src/main.rs:229-251 | changing a node's state keeps its id and `child_ids` and those of every node outside its subtree |
| `CommentTree.VisitFromMembers` | src/app.rs:354-368 | the visit of a child list holds exactly the entries whose paths extend the prefix and resolve to their copies |
| `CommentTree.VisitMembers` | src/app.rs:354-368 | the visit of a node holds exactly the entries whose paths extend the node's path and resolve to their copies |
| `CommentTree.ProjectionMembers` | src/app.rs:345-368 | an entry is a visible row exactly when its path reaches that very node through `Expanded` nodes |
| `CommentTree.ProjectionResolves` | src/app.rs:345-368 | every visible row's path resolves to the row's copy |
| `CommentTree.ProjectionPreOrder` | src/app.rs:345-368 | the visible rows are in strictly increasing lexicographic path order, so in pre-order without repeats |
| `CommentTree.FirstWithId` | src/app.rs:311-342 | the first row with the id, and no earlier row has it |
| `CommentTree.UpdateNodeFirstMatch` | src/app.rs:324-342 | the search from one node finds exactly the first pre-order match and replaces only that node |
| `CommentTree.UpdateFromFirstMatch` | src/app.rs:311-342 | the same for a list of siblings searched in order |
| `CommentTree.UpdateByIdFirstMatch` | src/app.rs:311-342 | reports a match exactly when a visible row has the id; without one the tree is unchanged; with one the updater is applied to the first such node only |
| `CommentTree.UpdateByIdFoundIffReachable` | src/app.rs:311-342 | a match is reported exactly when some path reaches a node with the id |
| `AppState.StoryTypeNames` | src/app.rs:27-43 | distinct kinds have distinct API names; the shown name is the API name with a capital first letter |
| `AppState.SaturatingSub` | src/app.rs:175-181 | the result is the difference when that is not negative and 0 otherwise: never above the minuend, and adding the subtrahend back reaches at least the minuend, exactly when the result is positive |
| `AppState.ClampIndex` | src/app.rs:406-409 | an index past the end of a non-empty list comes back to its last row; an index in range, or any index of an empty list, is kept |
| `AppState.ScrollFor` | src/app.rs:174-183 | the new offset shows the cursor inside a window of the given size, and stays put when the cursor was already shown |
| `AppState.ScrollForMinimal` | src/app.rs:174-183 | no offset that shows the cursor moves the window less |
| `AppState.NearestOpen` | src/app.rs:288-308 | the deepest depth whose ancestor-or-self is `Expanded` or `Loading`, and none deeper; none when there is no such depth |
| `AppState.NearestOpenOfResolved` | src/app.rs:288-308 | for a visible row, the node collapsed is the row's own node when open, else its parent |
| `AppState.App.constructor` | src/app.rs:136-155 | the initial state: best stories, page 1, loading, page size 20, empty lists and cache |
| `AppState.App.NextStory` | src/app.rs:160-164 | one down, never past the last story, and no move on an empty list |
| `AppState.App.PrevStory` | src/app.rs:167-171 | one up, never below 0 |
| `AppState.App.UpdateStoryScroll` | src/app.rs:174-183 | the offset becomes `ScrollFor` of the cursor with `height - 4` rows; with more than 4 rows the cursor is inside the window |
| `AppState.App.NextPage` | src/app.rs:186-190 | next page, first row, top of the list |
| `AppState.App.PrevPage` | src/app.rs:193-199 | nothing happens on page 1; otherwise the previous page, first row, top of the list |
| `AppState.App.SetStoryType` | src/app.rs:202-209 | a different kind starts at page 1, row 0; the current kind changes nothing |
| `AppState.App.SelectedStory` | src/app.rs:212-214 | the story under the cursor exactly when the cursor is in range |
| `AppState.App.NextComment` | src/app.rs:219-223 | one down, never past the last row, and no move on an empty list |
| `AppState.App.PrevComment` | src/app.rs:226-230 | one up, never below 0 |
| `AppState.App.FirstComment` | src/app.rs:233-235 | the cursor is on the first row |
| `AppState.App.LastComment` | src/app.rs:238-242 | the cursor is on the last row, or unchanged when there are none |
| `AppState.App.UpdateCommentScroll` | src/app.rs:245-254 | the offset becomes `ScrollFor` of the cursor with `height - 6` rows; with more than 6 rows the cursor is inside the window |
| `AppState.App.SelectedEntry` | src/app.rs:257-264 | the row under the comment cursor exactly when the cursor is in range |
| `AppState.App.GetCommentByPath` | src/app.rs:267-285 | the walk returns exactly `LookupList` of the path |
| `AppState.App.CollapseCurrentThread` | src/app.rs:288-308 | without a row, or without an open node on its path, nothing changes; otherwise the deepest open node becomes `Collapsed`, the list is rebuilt and the cursor is clamped to a row |
| `AppState.App.UpdateCommentById` | src/app.rs:311-321 | the loop over top-level comments gives exactly `UpdateById` |
| `AppState.App.UpdateCommentRecursive` | src/app.rs:324-342 | the recursive search gives exactly `UpdateNode` |
| `AppState.App.RebuildVisibleComments` | src/app.rs:345-351 | the visible list becomes the projection of the tree, so rebuilding twice gives the same list |
| `AppState.App.AddVisibleCommentRecursive` | src/app.rs:354-368 | appends exactly the visit of the node at its path |
| `AppState.App.ViewComments` | src/app.rs:373-383 | the comments view of that story, an empty tree and list, the cursor on top, loading |
| `AppState.App.ViewStories` | src/app.rs:386-391 | back to the stories view with the tree dropped |
| `AppState.App.ToggleHelp` | src/app.rs:394-396 | the help flag flips |
| `AppState.App.SetStories` | src/app.rs:401-410 | the list is shown, loading and error cleared, and a cursor past the end of a non-empty list comes back onto its last story |
| `AppState.App.ApplyStoriesPage` | src/app.rs:413-420 | the page is always cached; the list, loading, error and cursor change only when the page is the current (kind, page) |
| `AppState.App.CachedStories` | src/app.rs:423-427 | the cached page exactly when the current (kind, page) is cached |
| `AppState.App.SetComments` | src/app.rs:430-435 | the tree is replaced, the list is its projection, loading and error are cleared |
| `AppState.App.SetError` | src/app.rs:438-441 | the error is set and loading cleared |
| `AppState.App.ClearError` | src/app.rs:444-446 | the error is cleared |
| `AppState.App.SetLoading` | src/app.rs:449-454 | loading is set; starting to load clears the error and stopping keeps it |
| `Dispatch.ToggleTransition` | src/main.rs:228-256 | a collapsed node with child ids goes to `Loading` and fetches exactly those ids one level deeper; an expanded one collapses; a loading one, or a collapsed one without ids, stays with no fetch |
| `Dispatch.CollapseThenExpandRefetches` | src/main.rs:229-251 | a collapse keeps the child ids, so the next expand fetches the same ids for the same node |
| `Dispatch.ToggleExpand` | src/main.rs:226-258 | the transition is applied to the node under the cursor through its path and the list rebuilt; with no row under the cursor nothing happens |
| `Dispatch.RequestStories` | src/main.rs:181-210 | a forced refresh evicts the page, sets loading and fetches; an unforced hit shows the cached page with no fetch; an unforced miss sets loading and fetches (kind, page size, page) |
| `Dispatch.ChangePage` | src/main.rs:133-144 | next page, previous page (not below 1) and a kind change (which restarts at page 1, and is a no-op for the current kind) set the page and kind, put selection and scroll at the top whenever the page or kind moved, and then request the page: a cache hit is shown with the selection clamped and the error cleared, a miss is fetched with the old list kept on screen |
| `Dispatch.HandleStoryAction` | src/main.rs:125-178 | for every action, every field it may change: the cursor moves of `next_story`/`prev_story`; page, kind, scroll and selection for the page actions as `Dispatch.ChangePage`; a forced fetch for refresh; after any page request, a fetch that keeps the old list on screen and a cache hit that clears the error; open and view acting on the selected story only; quit and help setting their flags; and the kind, page, scroll, selection, cache, list, error, loading, view and tree unchanged by every action that does not itself change them |
| `Dispatch.HandleCommentAction` | src/main.rs:213-276 | the four cursor moves as `next_comment`, `prev_comment`, `first_comment`, `last_comment`; toggle as `ToggleExpand`; collapse as `collapse_current_thread` (the deepest open node on the cursor's path becomes `Collapsed` and the cursor is clamped onto the rebuilt list); open gives the story's link; back returns to the stories with an empty tree; only toggle, collapse and back touch the tree, and only the moves, collapse and back touch the cursor |
| `Dispatch.ExpandWith` | src/main.rs:304-308 | the updater gives any comment the state `Expanded` with the loaded children and changes no other field |
| `Dispatch.RevertLoading` | src/main.rs:315-319 | a `Loading` node goes back to `Collapsed`, any other state is kept, and no other field changes |
| `Dispatch.HandleAppMessage` | src/main.rs:279-325 | pages: always cached on success, shown or reported as failed only for the current (kind, page), never cached on error. Comments: replaced, or kept with the error set. Children: the first node with the id is expanded with them, or reverted from `Loading` with the error set |
| `Dispatch.ChildrenReplyFirstMatch` | src/main.rs:302-321 | a children reply sets the state of the first visible node with the id, to `Expanded` whatever it was or to the revert of a failed load; with no such node the tree is unchanged |
| `Dispatch.SetStateKeepsChildIds` | src/main.rs:229-251 | a toggle or a revert removes exactly the nodes below the node it changes; every other node keeps its id and `child_ids` |
| `Dispatch.FirstMatchIsAt` | src/app.rs:311-342 | when visible ids are unique, the first match for a node's id is that node |
| `Dispatch.ChildrenLoadedAt` | src/main.rs:302-311 | with unique ids, loaded children expand exactly the node they were fetched for |
| `Dispatch.ChildrenFailedAt` | src/main.rs:312-321 | with unique ids, a failed load collapses that node if it is still loading and otherwise changes nothing |
| `Dispatch.UnknownIdLeavesTree` | src/main.rs:302-321 | a reply for an id that no reachable node has leaves the tree unchanged |
| `CommentsView.BranchGuides` | src/ui/comments.rs:234-258 | the walk gives exactly `GuidesFrom` of the path |
| `CommentsView.GuidesStep` | src/ui/comments.rs:238-254 | one level's flag, then the walk goes on only through an in-range `Expanded` node |
| `CommentsView.GuidesLength` | src/ui/comments.rs:234-258 | at most one flag per level, and exactly one per level exactly when every node above the last step is `Expanded` |
| `CommentsView.ResolvedPathIntermediates` | src/ui/comments.rs:234-258 | the path of a visible row has every intermediate node `Expanded`, so it gets a flag per level |
| `CommentsView.GuidesFlag` | src/ui/comments.rs:239-240 | flag `d` is set exactly when `path[d] + 1` reaches the number of siblings at level `d` |
| `CommentsView.Segment` | src/ui/comments.rs:268-279 | every level's segment is two characters |
| `CommentsView.SegmentsUpTo` | src/ui/comments.rs:268-279 | `n` levels give `2n` characters |
| `CommentsView.GuidesToPrefix` | src/ui/comments.rs:261-283 | the loop gives exactly `Prefix` of the guides |
| `CommentsView.SegmentsAt` | src/ui/comments.rs:268-279 | characters `2i` and `2i+1` are level `i`'s segment |
| `CommentsView.PrefixShape` | src/ui/comments.rs:264-282 | no guides give the empty string; otherwise one two-character segment per guide then two spaces |
| `CommentsView.PrefixInnerSegment` | src/ui/comments.rs:276-278 | a level before the last shows `"  "` for a last ancestor and `"│ "` otherwise, with or without the elbow |
| `CommentsView.PrefixFinalSegment` | src/ui/comments.rs:270-275 | the last level shows `"└─"` or `"├─"` with the elbow and `"  "` or `"│ "` without |
| `CommentsView.PrefixPart` | src/ui/comments.rs:281 | the trailing spaces do not disturb the segments before them |
| `CommentsView.DepthColor` | src/ui/comments.rs:286-298 | the colour is one of the six of the palette |
| `CommentsView.DepthColorCycle` | src/ui/comments.rs:286-298 | colours repeat with period 6 and adjacent depths differ |
| `CommentsView.GuideColor` | src/ui/comments.rs:145 | a row's guide colour is one of the palette |
| `CommentsView.GuideColorNesting` | src/ui/comments.rs:145 | top-level rows draw gray, a reply never shares its parent's colour, and siblings share one |
| `CommentsView.SpinnerFrame` | src/ui/widgets.rs:13-19 | the frame is one of the ten spinner frames |
| `CommentsView.ReplyLabel` | src/ui/comments.rs:204 | `"reply"` exactly for a count of 1, `"replies"` otherwise |
| `CommentsView.ChildInfo` | src/ui/comments.rs:163-211 | no line for a deleted comment, which shows only `[deleted]`, nor for one without child ids; otherwise collapsed shows the count and its word, loading the spinner, expanded the hint to collapse |
| `CommentsView.ChildInfoCount` | src/ui/comments.rs:199-205 | for a comment that is not deleted, the count shown reads back as the number of child ids |

## Left out

- Terminal setup, the draw/poll loop, the message channel, `tokio::spawn` and `open::that` are I/O and concurrency. Each spawn, and each link opened, is modelled as the `Effect` the handler returns.
- The HTTP clients of src/hn_client.rs and src/lib.rs:50-108 need the network. So do the service fetch methods they back, which are not in the shown source. Their answers enter only as `AppMessage` values.
- `next_comment_sibling`, `prev_comment_sibling` and `parent_comment` are called from src/main.rs:221-223 but defined in no shown file. `Dispatch.HandleCommentAction` therefore excludes those three actions by a precondition.
- `set_stories_for` (src/main.rs:191) is defined in no shown file. It is modelled as `set_stories` of the cached page. That is also what `apply_stories_page` would do, since the page is already cached.
- `should_show_loading`, `displayed_story_context` and `showing_stale_stories` are defined in no shown file. No loading debounce is modelled.
- `EventHandler::next` is terminal polling. The key tables take a `KeyCode` datatype: its `Other` case stands for every key the tables do not name, and modifiers are ignored as in the source.
- Rendering layout and styles are left out: the row list, indicators, colours of text and the help overlay. Only the pure guide, colour and reply-line logic is modelled.
- Reading the clock and formatting dates (`now`, `unix_epoch_to_datetime`) are foreign calls. `now` and the formatted date are parameters of `Items.ToHnCliItem`.
- Rust's clones and borrows are left out, including the clone of the tree while rebuilding. Dafny values already have copy semantics.
- The unit tests are not modelled as code. Their expectations appear as `TimeUtils.TimeAgoJustNow`, `TimeUtils.TimeAgoOneUnit`, `Items.DisplayExample` and the method contracts.
- `AppState.App.UpdateStoryScroll`: it requires a viewport taller than 4 rows, or the cursor above the window. Otherwise the source computes `0 - 1` on a `usize`, which panics in a debug build.
- `AppState.App.UpdateCommentScroll`: it requires a viewport taller than 6 rows, or the cursor above the window, for the same reason.
- `AppState.App.NextPage`: it requires a page below the `u32` maximum. The source's `+= 1` would overflow there.
- `Dispatch.HandleStoryAction`: it requires a page below the `u32` maximum, for the next-page action only.
- `Dispatch.ChangePage`: it requires a page below the `u32` maximum for the next-page action, as `AppState.App.NextPage` does. It has no counterpart function in the source: it groups the three arms of `handle_story_action` that move the page or kind and then call `request_stories`.
- `TimeUtils.TimeAgo`: it requires an event time no later than `now`. The source subtracts two `u64` values.
- `Items.ToHnCliItem`: it requires an event time no later than `now`, as `TimeUtils.TimeAgo` does.
- Comment ids, story ids and scores are unbounded integers. The source's `i32` bounds play no part in any branch.

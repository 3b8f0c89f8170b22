/** Keyboard handling (src/event.rs): the two pure tables that turn a key
    into an action, one for the stories view and one for the comments view. */
module Event {
  import AppState
  type StoryType = AppState.StoryType

  /** The keys the tables tell apart; `Other` stands for every other key
      code the terminal library can report (function keys, Tab, ...). */
  datatype KeyCode = Char(c: char) | Enter | Esc | Up | Down | Left | Right | Other

  datatype StoryAction =
    | NextStory | PrevStory | NextPage | PrevPage | SetType(kind: StoryType)
    | OpenUrl | ViewComments | Refresh | ToggleHelp | Quit | NoAction

  datatype CommentAction =
    | NextComment | PrevComment | FirstComment | LastComment
    | NextSibling | PrevSibling | Parent | ToggleExpand | CollapseThread
    | OpenStoryUrl | ToggleCommentHelp | Back | NoCommentAction

  /** `handle_stories_key`. Each action is stated with the exact set of keys
      that produce it. */
  function HandleStoriesKey(key: KeyCode): (a: StoryAction)
    ensures a == NextStory <==> key == Char('j') || key == Down
    ensures a == PrevStory <==> key == Char('k') || key == Up
    ensures a == NextPage <==> key == Char('n') || key == Right
    ensures a == PrevPage <==> key == Char('p') || key == Left
    ensures a == SetType(AppState.Top) <==> key == Char('1')
    ensures a == SetType(AppState.New) <==> key == Char('2')
    ensures a == SetType(AppState.Best) <==> key == Char('3')
    ensures a == OpenUrl <==> key == Enter || key == Char('o')
    ensures a == ViewComments <==> key == Char('c')
    ensures a == Refresh <==> key == Char('r')
    ensures a == ToggleHelp <==> key == Char('?')
    ensures a == Quit <==> key == Char('q') || key == Esc
    ensures a == NoAction <==> key !in StoryKeys()
  {
    match key
    case Char('j') | Down => NextStory
    case Char('k') | Up => PrevStory
    case Char('n') | Right => NextPage
    case Char('p') | Left => PrevPage
    case Char('1') => SetType(AppState.Top)
    case Char('2') => SetType(AppState.New)
    case Char('3') => SetType(AppState.Best)
    case Enter | Char('o') => OpenUrl
    case Char('c') => ViewComments
    case Char('r') => Refresh
    case Char('?') => ToggleHelp
    case Char('q') | Esc => Quit
    case _ => NoAction
  }

  /** The keys the stories view binds. */
  function StoryKeys(): set<KeyCode>
  {
    {Char('j'), Down, Char('k'), Up, Char('n'), Right, Char('p'), Left,
     Char('1'), Char('2'), Char('3'), Enter, Char('o'), Char('c'), Char('r'),
     Char('?'), Char('q'), Esc}
  }

  /** `handle_comments_key`, stated the same way. */
  function HandleCommentsKey(key: KeyCode): (a: CommentAction)
    ensures a == NextComment <==> key == Char('j') || key == Down
    ensures a == PrevComment <==> key == Char('k') || key == Up
    ensures a == NextSibling <==> key == Char(']')
    ensures a == PrevSibling <==> key == Char('[')
    ensures a == Parent <==> key == Char('u')
    ensures a == FirstComment <==> key == Char('g')
    ensures a == LastComment <==> key == Char('G')
    ensures a == ToggleExpand <==> key == Enter || key == Char('l') || key == Right
    ensures a == CollapseThread <==> key == Char('c')
    ensures a == OpenStoryUrl <==> key == Char('o')
    ensures a == ToggleCommentHelp <==> key == Char('?')
    ensures a == Back <==> key == Char('q') || key == Esc || key == Char('h') || key == Left
    ensures a == NoCommentAction <==> key !in CommentKeys()
  {
    match key
    case Char('j') | Down => NextComment
    case Char('k') | Up => PrevComment
    case Char(']') => NextSibling
    case Char('[') => PrevSibling
    case Char('u') => Parent
    case Char('g') => FirstComment
    case Char('G') => LastComment
    case Enter | Char('l') | Right => ToggleExpand
    case Char('c') => CollapseThread
    case Char('o') => OpenStoryUrl
    case Char('?') => ToggleCommentHelp
    case Char('q') | Esc | Char('h') | Left => Back
    case _ => NoCommentAction
  }

  /** The keys the comments view binds. */
  function CommentKeys(): set<KeyCode>
  {
    {Char('j'), Down, Char('k'), Up, Char(']'), Char('['), Char('u'), Char('g'),
     Char('G'), Enter, Char('l'), Right, Char('c'), Char('o'), Char('?'),
     Char('q'), Esc, Char('h'), Left}
  }

  /** The same key means different things in the two views: 'c' opens the
      comments from the story list and collapses a thread inside them, and
      the arrow keys page in one view and expand or leave in the other. */
  lemma KeysDependOnView()
    ensures HandleStoriesKey(Char('c')) == ViewComments
    ensures HandleCommentsKey(Char('c')) == CollapseThread
    ensures HandleStoriesKey(Right) == NextPage && HandleCommentsKey(Right) == ToggleExpand
    ensures HandleStoriesKey(Left) == PrevPage && HandleCommentsKey(Left) == Back
  {
  }
}

/** Story items as fetched from the API and as shown by the client
    (src/lib.rs): the URL fallback, the conversion, and the three-line text
    form. */
module Items {
  import opened Format
  import opened Wrappers
  import TimeUtils

  /** Where a story without its own link is discussed. */
  const ItemPagePrefix: string := "https://news.ycombinator.com/item?id="

  /** An item as the API returns it. */
  datatype HackerNewsItem = HackerNewsItem(
    byUser: string,  // the API field `by`
    score: int,
    time: nat,
    title: string,
    url: Option<string>,
    descendants: Option<int>,
    id: int,
    kids: Option<seq<int>>,
    kind: string)

  /** An item as the client shows it. */
  datatype HNCLIItem = HNCLIItem(
    id: int,
    title: string,
    url: string,
    author: string,
    time: string,
    timeAgo: string,
    score: int,
    comments: Option<int>)

  /** `get_item_url`: the item's own link, else its discussion page. */
  function GetItemUrl(item: HackerNewsItem): (url: string)
    ensures item.url.Some? ==> url == item.url.value
    ensures item.url.None? ==> url == ItemPagePrefix + IntToString(item.id)
  {
    match item.url
    case Some(u) => u
    case None => ItemPagePrefix + IntToString(item.id)
  }

  /** `to_hn_cli_item`. `datetime` is the absolute time already formatted by
      the date library, and `now` is the current clock reading. */
  function ToHnCliItem(item: HackerNewsItem, now: nat, datetime: string): (r: HNCLIItem)
    requires item.time <= now
    ensures r.id == item.id && r.title == item.title && r.author == item.byUser
    ensures r.score == item.score && r.comments == item.descendants
    ensures r.url == GetItemUrl(item)
    ensures r.time == datetime && r.timeAgo == TimeUtils.TimeAgo(item.time, now)
  {
    HNCLIItem(item.id, item.title, GetItemUrl(item), item.byUser, datetime,
              TimeUtils.TimeAgo(item.time, now), item.score, item.descendants)
  }

  /** The comment-count segment of the second line. */
  function CommentSegment(comments: Option<int>): (seg: string)
    ensures comments.None? <==> seg == ""
  {
    match comments
    case Some(n) => IntToString(n) + " comments"
    case None => ""
  }

  function FirstLine(item: HNCLIItem): string { item.title + " by " + item.author }

  function SecondLine(item: HNCLIItem): string
  {
    "[" + IntToString(item.score) + " points] - " + CommentSegment(item.comments) + " - " + item.timeAgo
  }

  function LastLine(item: HNCLIItem): string { "-> " + item.url }

  /** `Display for HNCLIItem`. */
  function Display(item: HNCLIItem): string
  {
    FirstLine(item) + "\n" + SecondLine(item) + "\n" + LastLine(item)
  }

  predicate SingleLine(s: string) { '\n' !in s }

  /** When no field holds a line break, the text is exactly the three lines
      "<title> by <author>", "[<score> points] - <comments> - <age>" and
      "-> <url>". */
  lemma DisplayThreeLines(item: HNCLIItem)
    requires SingleLine(item.title) && SingleLine(item.author)
    requires SingleLine(item.timeAgo) && SingleLine(item.url)
    ensures SplitLines(Display(item)) == [FirstLine(item), SecondLine(item), LastLine(item)]
  {
    var a, b, c := FirstLine(item), SecondLine(item), LastLine(item);
    assert SingleLine(CommentSegment(item.comments));
    assert SingleLine(a) && SingleLine(b) && SingleLine(c);
    assert Display(item) == a + "\n" + (b + "\n" + c);
    SplitLinesCons(a, b + "\n" + c);
    SplitLinesCons(b, c);
    SplitLinesNoBreak(c);
  }

  /** The rendering of the item seen in the crate's own test. */
  lemma DisplayExample()
    ensures Display(HNCLIItem(0, "Rust is awesome", "https://rust-lang.org", "me",
                              "2020-05-07 22:01:28", "0 seconds ago", 9, Some(1)))
         == "Rust is awesome by me" + "\n" + ("[9 points] - " + "1 comments - " + "0 seconds ago")
            + "\n" + "-> https://rust-lang.org"
  {
    var item := HNCLIItem(0, "Rust is awesome", "https://rust-lang.org", "me",
                          "2020-05-07 22:01:28", "0 seconds ago", 9, Some(1));
    SecondLineExample(item);
    assert FirstLine(item) == "Rust is awesome by me";
    assert LastLine(item) == "-> https://rust-lang.org";
  }

  lemma SecondLineExample(item: HNCLIItem)
    requires item.score == 9 && item.comments == Some(1) && item.timeAgo == "0 seconds ago"
    ensures SecondLine(item) == "[9 points] - " + "1 comments - " + "0 seconds ago"
  {
    assert IntToString(9) == "9" && IntToString(1) == "1";
    assert "[" + "9" + " points] - " == "[9 points] - ";
    assert "1" + " comments" + " - " == "1 comments - ";
  }
}

/** The pure parts of drawing one comment row (src/ui/comments.rs): the
    tree guides drawn to the left of a comment, their colour, and the line
    that says how many replies a node has. Layout and styling are not
    modelled. */
module CommentsView {
  import opened Wrappers
  import opened Format
  import opened CommentTree

  // ---------------------------------------------------------------------
  // Branch guides

  /** One flag per level of `path`, saying whether the node on the path at
      that level is the last of its siblings. The walk stops after the last
      step, and also as soon as a level cannot be entered: an index out of
      range, or a node that is not `Expanded`. */
  function GuidesFrom(level: seq<Comment>, path: Path): seq<bool>
    decreases |path|
  {
    if path == [] then []
    else [path[0] + 1 >= |level|]
         + if |path| > 1 && path[0] < |level| && level[path[0]].state.Expanded?
           then GuidesFrom(level[path[0]].state.children, path[1..])
           else []
  }

  /** `branch_guides`, with the top-level list it starts from given
      directly. */
  method BranchGuides(comments: seq<Comment>, path: Path) returns (guides: seq<bool>)
    ensures guides == GuidesFrom(comments, path)
  {
    guides := [];
    var currentLevel := comments;
    var depth := 0;
    while depth < |path|
      invariant 0 <= depth <= |path|
      invariant guides + GuidesFrom(currentLevel, path[depth..]) == GuidesFrom(comments, path)
    {
      var idx := path[depth];
      var isLast := idx + 1 >= |currentLevel|;
      GuidesStep(guides, currentLevel, path, depth);
      guides := guides + [isLast];
      if depth + 1 == |path| {
        break;
      }
      if idx < |currentLevel| && currentLevel[idx].state.Expanded? {
        currentLevel := currentLevel[idx].state.children;
      } else {
        break;
      }
      depth := depth + 1;
    }
  }

  /** One step of the walk at level `depth`: the level's flag, then the rest
      of the walk through an in-range `Expanded` node, or nothing more. */
  lemma GuidesStep(before: seq<bool>, level: seq<Comment>, path: Path, depth: nat)
    requires depth < |path|
    ensures var b := path[depth] + 1 >= |level|;
            && (depth + 1 < |path| && path[depth] < |level| && level[path[depth]].state.Expanded? ==>
                  before + GuidesFrom(level, path[depth..])
                  == (before + [b]) + GuidesFrom(level[path[depth]].state.children, path[depth + 1..]))
            && (!(depth + 1 < |path| && path[depth] < |level| && level[path[depth]].state.Expanded?) ==>
                  before + GuidesFrom(level, path[depth..]) == before + [b])
  {
    var rest := path[depth..];
    assert rest[0] == path[depth] && rest[1..] == path[depth + 1..] && |rest| == |path| - depth;
    GuidesUnfold(level, rest);
    var b := path[depth] + 1 >= |level|;
    if depth + 1 < |path| && path[depth] < |level| && level[path[depth]].state.Expanded? {
      ConcatAssoc(before, [b], GuidesFrom(level[path[depth]].state.children, path[depth + 1..]));
    }
  }

  lemma ConcatAssoc(x: seq<bool>, y: seq<bool>, z: seq<bool>)
    ensures x + (y + z) == (x + y) + z
  {
  }

  lemma GuidesUnfold(level: seq<Comment>, rest: Path)
    requires rest != []
    ensures var b := rest[0] + 1 >= |level|;
            && (|rest| > 1 && rest[0] < |level| && level[rest[0]].state.Expanded? ==>
                  GuidesFrom(level, rest) == [b] + GuidesFrom(level[rest[0]].state.children, rest[1..]))
            && (!(|rest| > 1 && rest[0] < |level| && level[rest[0]].state.Expanded?) ==>
                  GuidesFrom(level, rest) == [b])
  {
  }

  /** Every node on the path strictly above its last step resolves and is
      `Expanded`. */
  predicate IntermediatesExpanded(level: seq<Comment>, path: Path)
    decreases |path|
  {
    |path| <= 1
    || (path[0] < |level| && level[path[0]].state.Expanded?
        && IntermediatesExpanded(level[path[0]].state.children, path[1..]))
  }

  /** There is never more than one flag per level, and exactly one per
      level precisely when every node above the last step is `Expanded`. */
  lemma {:induction false} GuidesLength(level: seq<Comment>, path: Path)
    ensures |GuidesFrom(level, path)| <= |path|
    ensures |GuidesFrom(level, path)| == |path| <==> IntermediatesExpanded(level, path)
    decreases |path|
  {
    if |path| > 1 && path[0] < |level| && level[path[0]].state.Expanded? {
      GuidesLength(level[path[0]].state.children, path[1..]);
    }
  }

  /** For the path of a visible row every intermediate node is `Expanded`,
      so it gets one flag per level. */
  lemma {:induction false} ResolvedPathIntermediates(level: seq<Comment>, path: Path)
    requires LookupList(level, path).Some?
    ensures IntermediatesExpanded(level, path)
    decreases |path|
  {
    if |path| > 1 {
      var c := level[path[0]];
      assert LookupList(level, path) == LookupNode(c, path[1..]);
      ResolvedPathIntermediates(c.state.children, path[1..]);
    }
  }

  /** Flag `d` is set exactly when `path[d]` is the last index, or beyond
      the last, of the sibling list at level `d`: the top-level list for
      `d == 0`, else the children of the node at `path[..d]`. */
  lemma {:induction false} GuidesFlag(level: seq<Comment>, path: Path, d: nat)
    requires d < |GuidesFrom(level, path)|
    ensures d < |path|
    ensures d == 0 ==> (GuidesFrom(level, path)[0] <==> path[0] + 1 >= |level|)
    ensures d > 0 ==>
              && LookupList(level, path[..d]).Some?
              && LookupList(level, path[..d]).value.state.Expanded?
              && (GuidesFrom(level, path)[d] <==>
                    path[d] + 1 >= |LookupList(level, path[..d]).value.state.children|)
    decreases d
  {
    GuidesLength(level, path);
    GuidesUnfold(level, path);
    if d > 0 {
      var c := level[path[0]];
      var rest := path[1..];
      assert |path| > 1 && path[0] < |level| && c.state.Expanded?;
      assert GuidesFrom(level, path)[d] == GuidesFrom(c.state.children, rest)[d - 1];
      GuidesFlag(c.state.children, rest, d - 1);
      assert path[..d][0] == path[0] && path[..d][1..] == rest[..d - 1];
      if d == 1 {
        assert LookupList(level, path[..1]) == LookupNode(c, []);
      } else {
        assert LookupList(level, path[..d]) == LookupNode(c, rest[..d - 1]);
      }
    }
  }

  // ---------------------------------------------------------------------
  // Guide prefix

  /** The two characters drawn for one level. The final level with the
      elbow shows the branch itself; every other level shows whether a line
      continues down past it. */
  function Segment(isLast: bool, isFinal: bool, includeElbow: bool): (s: string)
    ensures |s| == 2
  {
    if isFinal && includeElbow then (if isLast then "└─" else "├─")
    else (if isLast then "  " else "│ ")
  }

  /** The segments of the first `n` levels. */
  function SegmentsUpTo(guides: seq<bool>, includeElbow: bool, n: nat): (s: string)
    requires n <= |guides|
    ensures |s| == 2 * n
  {
    if n == 0 then ""
    else SegmentsUpTo(guides, includeElbow, n - 1)
         + Segment(guides[n - 1], n - 1 == |guides| - 1, includeElbow)
  }

  /** The whole prefix: nothing for a top-level row with no guides, else
      one segment per level and two trailing spaces. */
  function Prefix(guides: seq<bool>, includeElbow: bool): string
  {
    if guides == [] then "" else SegmentsUpTo(guides, includeElbow, |guides|) + "  "
  }

  /** `guides_to_prefix`. */
  method GuidesToPrefix(guides: seq<bool>, includeElbow: bool) returns (prefix: string)
    ensures prefix == Prefix(guides, includeElbow)
  {
    prefix := "";
    if |guides| == 0 {
      return;
    }
    var i := 0;
    while i < |guides|
      invariant 0 <= i <= |guides|
      invariant prefix == SegmentsUpTo(guides, includeElbow, i)
    {
      var isFinal := i == |guides| - 1;
      var isLast := guides[i];
      if isFinal {
        if includeElbow {
          prefix := prefix + (if isLast then "└─" else "├─");
        } else {
          prefix := prefix + (if isLast then "  " else "│ ");
        }
      } else {
        prefix := prefix + (if isLast then "  " else "│ ");
      }
      i := i + 1;
    }
    prefix := prefix + "  ";
  }

  /** Characters `2i` and `2i + 1` of the first `n` levels are level `i`'s
      segment. */
  lemma {:induction false} SegmentsAt(guides: seq<bool>, includeElbow: bool, n: nat, i: nat)
    requires i < n <= |guides|
    ensures SegmentsUpTo(guides, includeElbow, n)[2 * i..2 * i + 2]
            == Segment(guides[i], i == |guides| - 1, includeElbow)
  {
    var prev := SegmentsUpTo(guides, includeElbow, n - 1);
    var last := Segment(guides[n - 1], n - 1 == |guides| - 1, includeElbow);
    if i < n - 1 {
      SegmentsAt(guides, includeElbow, n - 1, i);
      assert (prev + last)[2 * i..2 * i + 2] == prev[2 * i..2 * i + 2];
    } else {
      assert (prev + last)[2 * i..2 * i + 2] == last;
    }
  }

  /** No guides give no prefix; otherwise the prefix has one two-character
      segment per guide, then two spaces. */
  lemma PrefixShape(guides: seq<bool>, includeElbow: bool)
    ensures guides == [] ==> Prefix(guides, includeElbow) == ""
    ensures guides != [] ==>
              && |Prefix(guides, includeElbow)| == 2 * |guides| + 2
              && Prefix(guides, includeElbow)[2 * |guides|..] == "  "
  {
  }

  /** Every level but the last shows `"  "` below a last ancestor and
      `"│ "` otherwise, with or without the elbow. */
  lemma PrefixInnerSegment(guides: seq<bool>, i: nat)
    requires i < |guides| - 1
    ensures Prefix(guides, true)[2 * i..2 * i + 2] == Prefix(guides, false)[2 * i..2 * i + 2]
    ensures Prefix(guides, true)[2 * i..2 * i + 2] == if guides[i] then "  " else "│ "
  {
    SegmentsAt(guides, true, |guides|, i);
    SegmentsAt(guides, false, |guides|, i);
    PrefixPart(guides, true, i);
    PrefixPart(guides, false, i);
  }

  /** The last level shows `"└─"` or `"├─"` with the elbow, and `"  "` or
      `"│ "` without it. */
  lemma PrefixFinalSegment(guides: seq<bool>)
    requires guides != []
    ensures var i := |guides| - 1;
            && Prefix(guides, true)[2 * i..2 * i + 2] == (if guides[i] then "└─" else "├─")
            && Prefix(guides, false)[2 * i..2 * i + 2] == (if guides[i] then "  " else "│ ")
  {
    var i := |guides| - 1;
    SegmentsAt(guides, true, |guides|, i);
    SegmentsAt(guides, false, |guides|, i);
    PrefixPart(guides, true, i);
    PrefixPart(guides, false, i);
  }

  lemma PrefixPart(guides: seq<bool>, includeElbow: bool, i: nat)
    requires i < |guides|
    ensures Prefix(guides, includeElbow)[2 * i..2 * i + 2]
            == SegmentsUpTo(guides, includeElbow, |guides|)[2 * i..2 * i + 2]
  {
    var s := SegmentsUpTo(guides, includeElbow, |guides|);
    assert (s + "  ")[2 * i..2 * i + 2] == s[2 * i..2 * i + 2];
  }

  // ---------------------------------------------------------------------
  // Guide colour

  datatype Color = Gray | Cyan | Green | Yellow | Magenta | LightBlue

  /** The six guide colours, by depth. */
  const Palette: seq<Color> := [Gray, Cyan, Green, Yellow, Magenta, LightBlue]

  /** `depth_color`. */
  function DepthColor(depth: nat): (c: Color)
    ensures c in Palette
  {
    Palette[depth % |Palette|]
  }

  /** The colours repeat every six levels and two adjacent levels never
      share one. */
  lemma DepthColorCycle(depth: nat)
    ensures DepthColor(depth) == DepthColor(depth % 6)
    ensures DepthColor(depth + 6) == DepthColor(depth)
    ensures DepthColor(depth + 1) != DepthColor(depth)
  {
  }

  /** The colour of a row's guides: its own depth, counting top-level rows
      as depth 0. */
  function GuideColor(path: Path): (c: Color)
    ensures c in Palette
  {
    DepthColor(if |path| >= 1 then |path| - 1 else 0)
  }

  /** Top-level rows draw in the first colour; a reply never shares its
      parent's colour, and siblings always share one. */
  lemma GuideColorNesting(path: Path, i: nat, j: nat)
    ensures GuideColor([i]) == Gray
    ensures |path| >= 1 ==> GuideColor(path + [i]) != GuideColor(path)
    ensures GuideColor(path + [i]) == GuideColor(path + [j])
  {
    if |path| >= 1 {
      DepthColorCycle(|path| - 1);
    }
  }

  // ---------------------------------------------------------------------
  // Reply line

  /** The frames of the loading spinner (src/ui/widgets.rs). */
  const SpinnerFrames: seq<string> := ["⠋", "⠙", "⠹", "⠸", "⠼", "⠴", "⠦", "⠧", "⠇", "⠏"]

  /** `spinner_frame`: the frame for a tick of the event loop. */
  function SpinnerFrame(tick: nat): (s: string)
    ensures s in SpinnerFrames
  {
    SpinnerFrames[tick % |SpinnerFrames|]
  }

  /** The word after the count. */
  function ReplyLabel(count: nat): (word: string)
    ensures word == "reply" <==> count == 1
    ensures word == "replies" <==> count != 1
  {
    if count == 1 then "reply" else "replies"
  }

  /** The line under a comment that has child ids, by state: the reply
      count while collapsed, a spinner while loading, and the hint to
      collapse while expanded. A deleted comment shows only its
      `[deleted]` header, and a comment without child ids has no such
      line either. */
  function ChildInfo(c: Comment, tick: nat): (line: Option<string>)
    ensures line.None? <==> c.deleted || !c.HasChildren()
    ensures !c.deleted && c.HasChildren() && c.state.Collapsed? ==>
              line == Some("▸ " + NatToString(c.ChildCount()) + " " + ReplyLabel(c.ChildCount()))
    ensures !c.deleted && c.HasChildren() && c.state.Loading? ==>
              line == Some(SpinnerFrame(tick) + " Loading replies...")
    ensures !c.deleted && c.HasChildren() && c.state.Expanded? ==> line == Some("▾ Collapse")
  {
    if c.deleted || !c.HasChildren() then None
    else match c.state
      case Collapsed =>
        var n := c.ChildCount();
        Some("▸ " + NatToString(n) + " " + ReplyLabel(n))
      case Loading => Some(SpinnerFrame(tick) + " Loading replies...")
      case Expanded(_) => Some("▾ Collapse")
  }

  /** The count shown for a collapsed comment reads back as its number of
      child ids, and the word is singular exactly for one. */
  lemma ChildInfoCount(c: Comment, tick: nat)
    requires !c.deleted && c.HasChildren() && c.state.Collapsed?
    ensures var digits := NatToString(|c.childIds|);
            var line := ChildInfo(c, tick).value;
            && line[2..2 + |digits|] == digits
            && ParseNat(digits) == |c.childIds|
            && line[2 + |digits|..] == " " + (if |c.childIds| == 1 then "reply" else "replies")
  {
    var digits, word := NatToString(|c.childIds|), " " + ReplyLabel(|c.childIds|);
    var line := "▸ " + digits + word;
    ParseNatToString(|c.childIds|);
    assert ChildInfo(c, tick).value == line;
    assert |"▸ "| == 2;
    assert line[2..2 + |digits|] == digits && line[2 + |digits|..] == word;
  }
}

/** The comment tree of src/app.rs: nodes with a tri-state expansion, the
    path addressing used by the visible list, writing a node back through a
    path, the pre-order projection, and the first-match update by id. */
module CommentTree {
  import opened Wrappers

  /** Whether a node's replies are materialised. */
  datatype CommentState = Collapsed | Loading | Expanded(children: seq<Comment>)

  /** A comment. `childIds` is fixed when the node is built and is kept
      whatever the state. */
  datatype Comment = Comment(
    id: int,
    author: string,
    text: string,
    timeAgo: string,
    state: CommentState,
    depth: nat,
    deleted: bool,
    childIds: seq<int>)
  {
    predicate HasChildren() { |childIds| > 0 }
    function ChildCount(): nat { |childIds| }
    predicate IsExpanded() { state.Expanded? }
    predicate IsLoading() { state.Loading? }
  }

  /** The three states exclude each other, and "has children" and the child
      count are read from `childIds` alone, whatever the state. */
  lemma CommentPredicates(c: Comment)
    ensures c.HasChildren() <==> c.ChildCount() > 0
    ensures c.ChildCount() == |c.childIds|
    ensures !(c.IsExpanded() && c.IsLoading())
    ensures c.state == Collapsed <==> !c.IsExpanded() && !c.IsLoading()
    ensures forall s: CommentState :: c.(state := s).ChildCount() == c.ChildCount()
  {
  }

  /** Indices from the top-level list down through `Expanded` children. */
  type Path = seq<nat>

  /** One row of the visible list: where the node is, and a copy of it. */
  datatype Entry = Entry(path: Path, node: Comment)

  function Children(c: Comment): seq<Comment>
  {
    if c.state.Expanded? then c.state.children else []
  }

  predicate IsPrefix(p: Path, q: Path) { |p| <= |q| && q[..|p|] == p }

  /** The fields other than `state` agree. */
  predicate SameFields(a: Comment, b: Comment)
  {
    a.id == b.id && a.author == b.author && a.text == b.text && a.timeAgo == b.timeAgo
    && a.depth == b.depth && a.deleted == b.deleted && a.childIds == b.childIds
  }

  // ---------------------------------------------------------------------
  // Path lookup

  /** The node at `p` in the list `cs`: none for an empty path, an index out
      of range at any level, or a step through a node that is not
      `Expanded`. */
  function LookupList(cs: seq<Comment>, p: Path): Option<Comment>
    decreases |p|, 0
  {
    if p == [] || p[0] >= |cs| then None else LookupNode(cs[p[0]], p[1..])
  }

  /** The node reached from `c` by the steps `q`. */
  function LookupNode(c: Comment, q: Path): Option<Comment>
    decreases |q|, 1
  {
    if q == [] then Some(c)
    else match c.state
      case Expanded(ch) => LookupList(ch, q)
      case _ => None
  }

  /** The lookup fails exactly in the three cases the source returns none
      for, and otherwise takes the first step and continues. */
  lemma LookupListCases(cs: seq<Comment>, p: Path)
    ensures p == [] ==> LookupList(cs, p) == None
    ensures p != [] && p[0] >= |cs| ==> LookupList(cs, p) == None
    ensures |p| == 1 && p[0] < |cs| ==> LookupList(cs, p) == Some(cs[p[0]])
    ensures |p| > 1 && p[0] < |cs| && !cs[p[0]].state.Expanded? ==> LookupList(cs, p) == None
    ensures |p| > 1 && p[0] < |cs| && cs[p[0]].state.Expanded? ==>
              LookupList(cs, p) == LookupList(cs[p[0]].state.children, p[1..])
  {
  }

  /** Taking one step more: the child `j` of the node at `p`. */
  lemma {:induction false} LookupSnoc(cs: seq<Comment>, p: Path, j: nat)
    requires LookupList(cs, p).Some?
    ensures LookupList(cs, p + [j]) ==
              var n := LookupList(cs, p).value;
              if n.state.Expanded? && j < |n.state.children| then Some(n.state.children[j]) else None
    decreases |p|, 0
  {
    var tail := p[1..];
    assert (p + [j])[0] == p[0] && (p + [j])[1..] == tail + [j];
    LookupNodeSnoc(cs[p[0]], tail, j);
  }

  lemma {:induction false} LookupNodeSnoc(c: Comment, q: Path, j: nat)
    requires LookupNode(c, q).Some?
    ensures LookupNode(c, q + [j]) ==
              var n := LookupNode(c, q).value;
              if n.state.Expanded? && j < |n.state.children| then Some(n.state.children[j]) else None
    decreases |q|, 1
  {
    if q == [] {
      assert q + [j] == [j] && [j][1..] == [];
      if c.state.Expanded? && j < |c.state.children| {
        assert LookupList(c.state.children, [j]) == LookupNode(c.state.children[j], []);
      }
    } else {
      LookupSnoc(c.state.children, q, j);
    }
  }

  /** Every proper ancestor of a node that a path reaches is `Expanded`. */
  lemma {:induction false} AncestorExpanded(cs: seq<Comment>, p: Path, d: nat)
    requires LookupList(cs, p).Some?
    requires 1 <= d < |p|
    ensures LookupList(cs, p[..d]).Some? && LookupList(cs, p[..d]).value.state.Expanded?
    decreases |p|, 0
  {
    assert p[..d][0] == p[0] && p[..d][1..] == p[1..][..d - 1];
    NodeAncestorExpanded(cs[p[0]], p[1..], d - 1);
  }

  lemma {:induction false} NodeAncestorExpanded(c: Comment, q: Path, d: nat)
    requires LookupNode(c, q).Some?
    requires d < |q|
    ensures LookupNode(c, q[..d]).Some? && LookupNode(c, q[..d]).value.state.Expanded?
    decreases |q|, 1
  {
    if d > 0 {
      AncestorExpanded(c.state.children, q, d);
    }
  }

  // ---------------------------------------------------------------------
  // Writing a node back through a path

  /** The list `cs` with the node at `p` replaced by `n`; the list itself
      when `p` reaches no node. */
  function ReplaceList(cs: seq<Comment>, p: Path, n: Comment): (r: seq<Comment>)
    decreases |p|, 0
    ensures |r| == |cs|
  {
    if p == [] || p[0] >= |cs| then cs
    else cs[p[0] := ReplaceNode(cs[p[0]], p[1..], n)]
  }

  function ReplaceNode(c: Comment, q: Path, n: Comment): Comment
    decreases |q|, 1
  {
    if q == [] then n
    else match c.state
      case Expanded(ch) => c.(state := Expanded(ReplaceList(ch, q, n)))
      case _ => c
  }

  /** The node at `p` with its state set to `s`, as the source does through
      the reference it gets back from the path lookup. */
  function SetStateAt(cs: seq<Comment>, p: Path, s: CommentState): seq<Comment>
    requires LookupList(cs, p).Some?
  {
    ReplaceList(cs, p, LookupList(cs, p).value.(state := s))
  }

  /** Writing back the node a path already holds changes nothing. */
  lemma {:induction false} ReplaceListSame(cs: seq<Comment>, p: Path, n: Comment)
    requires LookupList(cs, p) == Some(n)
    ensures ReplaceList(cs, p, n) == cs
    decreases |p|, 0
  {
    ReplaceNodeSame(cs[p[0]], p[1..], n);
  }

  lemma {:induction false} ReplaceNodeSame(c: Comment, q: Path, n: Comment)
    requires LookupNode(c, q) == Some(n)
    ensures ReplaceNode(c, q, n) == c
    decreases |q|, 1
  {
    if q != [] {
      ReplaceListSame(c.state.children, q, n);
    }
  }

  /** Setting a node to the state it already has changes nothing. */
  lemma SetStateAtSame(cs: seq<Comment>, p: Path)
    requires LookupList(cs, p).Some?
    ensures SetStateAt(cs, p, LookupList(cs, p).value.state) == cs
  {
    var n := LookupList(cs, p).value;
    assert n.(state := n.state) == n;
    ReplaceListSame(cs, p, n);
  }

  /** What a lookup sees after a replacement at `p`: the new node at `p` and
      below it; the old nodes where the paths part; and the old ancestors,
      still `Expanded`, with every field other than `state` as before. */
  lemma {:induction false} ReplaceListLookup(cs: seq<Comment>, p: Path, n: Comment, q: Path)
    requires LookupList(cs, p).Some?
    ensures IsPrefix(p, q) ==> LookupList(ReplaceList(cs, p, n), q) == LookupNode(n, q[|p|..])
    ensures !IsPrefix(p, q) && !IsPrefix(q, p) ==>
              LookupList(ReplaceList(cs, p, n), q) == LookupList(cs, q)
    ensures IsPrefix(q, p) && q != p && q != [] ==>
              && LookupList(cs, q).Some? && LookupList(ReplaceList(cs, p, n), q).Some?
              && SameFields(LookupList(cs, q).value, LookupList(ReplaceList(cs, p, n), q).value)
              && LookupList(ReplaceList(cs, p, n), q).value.state.Expanded?
    decreases |p|, 0
  {
    var r := ReplaceList(cs, p, n);
    var i := p[0];
    assert r == cs[i := ReplaceNode(cs[i], p[1..], n)];
    if q != [] {
      if q[0] == i {
        assert IsPrefix(p, q) ==> IsPrefix(p[1..], q[1..]) && q[|p|..] == q[1..][|p| - 1..];
        assert IsPrefix(q, p) ==> IsPrefix(q[1..], p[1..]);
        assert !IsPrefix(p, q) && !IsPrefix(q, p) ==> !IsPrefix(p[1..], q[1..]) && !IsPrefix(q[1..], p[1..]);
        ReplaceNodeLookup(cs[i], p[1..], n, q[1..]);
      } else {
        assert !IsPrefix(p, q) && !IsPrefix(q, p);
      }
    }
  }

  lemma {:induction false} ReplaceNodeLookup(c: Comment, r: Path, n: Comment, s: Path)
    requires LookupNode(c, r).Some?
    ensures IsPrefix(r, s) ==> LookupNode(ReplaceNode(c, r, n), s) == LookupNode(n, s[|r|..])
    ensures !IsPrefix(r, s) && !IsPrefix(s, r) ==>
              LookupNode(ReplaceNode(c, r, n), s) == LookupNode(c, s)
    ensures IsPrefix(s, r) && s != r ==>
              && LookupNode(c, s).Some? && LookupNode(ReplaceNode(c, r, n), s).Some?
              && SameFields(LookupNode(c, s).value, LookupNode(ReplaceNode(c, r, n), s).value)
              && LookupNode(ReplaceNode(c, r, n), s).value.state.Expanded?
    decreases |r|, 1
  {
    if r == [] {
      assert s[|r|..] == s;
    } else {
      var ch := c.state.children;
      assert ReplaceNode(c, r, n) == c.(state := Expanded(ReplaceList(ch, r, n)));
      if s != [] {
        ReplaceListLookup(ch, r, n, s);
      }
    }
  }

  /** Setting the state at `p` keeps every field of that node other than
      `state`, and outside the subtree below `p` every node keeps all its
      fields (in particular its id and `childIds`); a node whose path does
      not meet `p` is unchanged altogether. */
  lemma SetStateAtLookup(cs: seq<Comment>, p: Path, s: CommentState, q: Path)
    requires LookupList(cs, p).Some?
    ensures LookupList(SetStateAt(cs, p, s), p) == Some(LookupList(cs, p).value.(state := s))
    ensures !IsPrefix(p, q) || q == p ==>
              && (LookupList(SetStateAt(cs, p, s), q).Some? <==> LookupList(cs, q).Some?)
              && (LookupList(cs, q).Some? ==>
                    SameFields(LookupList(cs, q).value, LookupList(SetStateAt(cs, p, s), q).value))
    ensures !IsPrefix(p, q) && !IsPrefix(q, p) ==>
              LookupList(SetStateAt(cs, p, s), q) == LookupList(cs, q)
  {
    var n := LookupList(cs, p).value.(state := s);
    ReplaceListLookup(cs, p, n, p);
    assert p[|p|..] == [];
    ReplaceListLookup(cs, p, n, q);
    if q == p {
      assert q[|p|..] == [];
    }
  }

  // ---------------------------------------------------------------------
  // The visible list: a pre-order projection of the tree

  /** `add_visible_comment_recursive`: the node itself, then, only when it
      is `Expanded`, each child with the path extended by its index. */
  function Visit(path: Path, c: Comment): seq<Entry>
    decreases c
  {
    [Entry(path, c)] + if c.state.Expanded? then VisitFrom(path, c.state.children, 0) else []
  }

  /** The children `cs[i..]` visited in order under `prefix`. */
  function VisitFrom(prefix: Path, cs: seq<Comment>, i: nat): seq<Entry>
    decreases cs, |cs| - i
  {
    if i >= |cs| then [] else Visit(prefix + [i], cs[i]) + VisitFrom(prefix, cs, i + 1)
  }

  /** `rebuild_visible_comments`: every top-level comment visited at path
      `[idx]`. */
  function Projection(cs: seq<Comment>): seq<Entry>
  {
    VisitFrom([], cs, 0)
  }

  /** One step of a sibling visit: child `i`'s visit, then the rest. */
  lemma VisitFromStep(prefix: Path, cs: seq<Comment>, i: nat)
    requires i < |cs|
    ensures VisitFrom(prefix, cs, i) == Visit(prefix + [i], cs[i]) + VisitFrom(prefix, cs, i + 1)
  {
  }

  /** The visit of an `Expanded` node: the node, then its children. */
  lemma VisitExpanded(path: Path, c: Comment)
    requires c.state.Expanded?
    ensures Visit(path, c) == [Entry(path, c)] + VisitFrom(path, c.state.children, 0)
  {
  }

  lemma EntriesAssoc(x: seq<Entry>, y: seq<Entry>, z: seq<Entry>)
    ensures (x + y) + z == x + (y + z)
  {
  }

  /** The entries of a visit are exactly the nodes below `c`, each paired
      with its path. */
  lemma {:induction false} VisitMembers(path: Path, c: Comment, e: Entry)
    ensures e in Visit(path, c) <==>
              IsPrefix(path, e.path) && LookupNode(c, e.path[|path|..]) == Some(e.node)
    decreases c
  {
    var ch := Children(c);
    if c.state.Expanded? {
      VisitFromMembers(path, c.state.children, 0, e);
    }
    assert Visit(path, c) == [Entry(path, c)] + VisitFrom(path, ch, 0);
    if IsPrefix(path, e.path) {
      var q := e.path[|path|..];
      if q == [] {
        assert e.path == path;
      } else {
        assert e.path[|path|] == q[0];
        if !c.state.Expanded? {
          assert LookupList(ch, q) == None;
        }
      }
    }
  }

  lemma {:induction false} VisitFromMembers(prefix: Path, cs: seq<Comment>, i: nat, e: Entry)
    ensures e in VisitFrom(prefix, cs, i) <==>
              && |e.path| > |prefix| && e.path[..|prefix|] == prefix && i <= e.path[|prefix|]
              && LookupList(cs, e.path[|prefix|..]) == Some(e.node)
    decreases cs, |cs| - i
  {
    var k := |prefix|;
    if i < |cs| {
      var p := prefix + [i];
      VisitFromStep(prefix, cs, i);
      VisitMembers(p, cs[i], e);
      VisitFromMembers(prefix, cs, i + 1, e);
      if |e.path| > k && e.path[..k] == prefix {
        var q := e.path[k..];
        assert q[0] == e.path[k] && q[1..] == e.path[k + 1..];
        if e.path[k] == i {
          assert e.path[..k + 1] == p;
        } else {
          assert !IsPrefix(p, e.path) by {
            if IsPrefix(p, e.path) { ChildPathStep(prefix, i, e.path); }
          }
        }
      } else {
        assert !IsPrefix(p, e.path) by {
          if IsPrefix(p, e.path) {
            ChildPathStep(prefix, i, e.path);
          }
        }
      }
    }
  }

  /** An entry is in the projection exactly when its path reaches its
      node: every entry resolves to its own copy, and every node that a path
      reaches (through `Expanded` nodes only) is listed. */
  lemma ProjectionMembers(cs: seq<Comment>, e: Entry)
    ensures e in Projection(cs) <==> LookupList(cs, e.path) == Some(e.node)
  {
    VisitFromMembers([], cs, 0, e);
    assert e.path[..0] == [] && e.path[0..] == e.path;
  }

  lemma ProjectionResolves(cs: seq<Comment>, k: nat)
    requires k < |Projection(cs)|
    ensures LookupList(cs, Projection(cs)[k].path) == Some(Projection(cs)[k].node)
  {
    ProjectionMembers(cs, Projection(cs)[k]);
  }

  /** Strict lexicographic order on paths; for paths in one tree it is the
      pre-order. */
  predicate LexLess(p: Path, q: Path)
    decreases |p|
  {
    |q| > 0 && (|p| == 0 || p[0] < q[0] || (p[0] == q[0] && LexLess(p[1..], q[1..])))
  }

  lemma {:induction false} LexLessIrreflexive(p: Path)
    ensures !LexLess(p, p)
    decreases |p|
  {
    if |p| > 0 { LexLessIrreflexive(p[1..]); }
  }

  lemma {:induction false} LexLessExtension(p: Path, q: Path)
    requires IsPrefix(p, q) && |q| > |p|
    ensures LexLess(p, q)
    decreases |p|
  {
    if |p| > 0 {
      assert q[0] == q[..|p|][0];
      assert q[1..][..|p| - 1] == q[..|p|][1..];
      LexLessExtension(p[1..], q[1..]);
    }
  }

  lemma {:induction false} LexLessDiverge(p: Path, q: Path, k: nat)
    requires k < |p| && k < |q| && p[..k] == q[..k] && p[k] < q[k]
    ensures LexLess(p, q)
    decreases k
  {
    if k > 0 {
      assert p[0] == p[..k][0] && q[0] == q[..k][0];
      assert p[1..][..k - 1] == p[..k][1..] && q[1..][..k - 1] == q[..k][1..];
      LexLessDiverge(p[1..], q[1..], k - 1);
    }
  }

  predicate SortedByPath(es: seq<Entry>)
  {
    forall a, b :: 0 <= a < b < |es| ==> LexLess(es[a].path, es[b].path)
  }

  lemma SortedConcat(x: seq<Entry>, y: seq<Entry>)
    requires SortedByPath(x) && SortedByPath(y)
    requires forall a, b :: 0 <= a < |x| && 0 <= b < |y| ==> LexLess(x[a].path, y[b].path)
    ensures SortedByPath(x + y)
  {
    forall a, b | 0 <= a < b < |x + y|
      ensures LexLess((x + y)[a].path, (x + y)[b].path)
    {
      if b < |x| {
      } else if a >= |x| {
        assert (x + y)[a] == y[a - |x|] && (x + y)[b] == y[b - |x|];
      } else {
        assert (x + y)[a] == x[a] && (x + y)[b] == y[b - |x|];
      }
    }
  }

  lemma {:induction false} VisitSorted(path: Path, c: Comment)
    ensures SortedByPath(Visit(path, c))
    decreases c
  {
    var rest := VisitFrom(path, Children(c), 0);
    if c.state.Expanded? {
      VisitFromSorted(path, c.state.children, 0);
    }
    forall a, b | 0 <= a < 1 && 0 <= b < |rest|
      ensures LexLess([Entry(path, c)][a].path, rest[b].path)
    {
      VisitFromMembers(path, Children(c), 0, rest[b]);
      LexLessExtension(path, rest[b].path);
    }
    SortedConcat([Entry(path, c)], rest);
  }

  lemma {:induction false} VisitFromSorted(prefix: Path, cs: seq<Comment>, i: nat)
    ensures SortedByPath(VisitFrom(prefix, cs, i))
    decreases cs, |cs| - i
  {
    if i < |cs| {
      var x := Visit(prefix + [i], cs[i]);
      var y := VisitFrom(prefix, cs, i + 1);
      VisitSorted(prefix + [i], cs[i]);
      VisitFromSorted(prefix, cs, i + 1);
      var k := |prefix|;
      forall a, b | 0 <= a < |x| && 0 <= b < |y|
        ensures LexLess(x[a].path, y[b].path)
      {
        VisitMembers(prefix + [i], cs[i], x[a]);
        VisitFromMembers(prefix, cs, i + 1, y[b]);
        assert x[a].path[..k] == x[a].path[..k + 1][..k];
        assert x[a].path[k] == x[a].path[..k + 1][k];
        LexLessDiverge(x[a].path, y[b].path, k);
      }
      SortedConcat(x, y);
    }
  }

  /** The projection lists nodes in pre-order: paths strictly increase
      lexicographically, so no node is listed twice. */
  lemma ProjectionPreOrder(cs: seq<Comment>)
    ensures SortedByPath(Projection(cs))
  {
    VisitFromSorted([], cs, 0);
  }

  // ---------------------------------------------------------------------
  // Update by id: the first match in pre-order

  /** The index of the first entry whose node has the id. */
  function FirstWithId(es: seq<Entry>, id: int): (k: Option<nat>)
    ensures k.Some? ==> k.value < |es| && es[k.value].node.id == id
    ensures k.Some? ==> forall j :: 0 <= j < k.value ==> es[j].node.id != id
    ensures k.None? ==> forall j :: 0 <= j < |es| ==> es[j].node.id != id
  {
    if es == [] then None
    else if es[0].node.id == id then Some(0)
    else match FirstWithId(es[1..], id)
      case None => None
      case Some(j) => Some(j + 1)
  }

  lemma {:induction false} FirstWithIdConcat(x: seq<Entry>, y: seq<Entry>, id: int)
    ensures FirstWithId(x + y, id) ==
              if FirstWithId(x, id).Some? then FirstWithId(x, id)
              else match FirstWithId(y, id)
                case None => None
                case Some(j) => Some(|x| + j)
  {
    if x == [] {
      assert x + y == y;
    } else if x[0].node.id == id {
      assert (x + y)[0] == x[0];
    } else {
      assert (x + y)[0] == x[0] && (x + y)[1..] == x[1..] + y;
      FirstWithIdConcat(x[1..], y, id);
    }
  }

  /** A path below child `i` of `prefix`: its step at that level is `i`. */
  lemma ChildPathStep(prefix: Path, i: nat, path: Path)
    requires IsPrefix(prefix + [i], path)
    ensures |path| > |prefix|
    ensures path[|prefix|..][0] == i && path[|prefix|..][1..] == path[|prefix| + 1..]
  {
    assert path[..|prefix| + 1][|prefix|] == i;
  }

  /** `update_comment_recursive`: the node itself if it has the id, else
      the first match among its children when it is `Expanded`. */
  function UpdateNode(c: Comment, id: int, f: Comment -> Comment): (bool, Comment)
    decreases c
  {
    if c.id == id then (true, f(c))
    else match c.state
      case Expanded(ch) =>
        var (found, ch') := UpdateFrom(ch, 0, id, f);
        (found, c.(state := Expanded(ch')))
      case _ => (false, c)
  }

  /** The first match among `cs[i..]`, in order. */
  function UpdateFrom(cs: seq<Comment>, i: nat, id: int, f: Comment -> Comment): (bool, seq<Comment>)
    decreases cs, |cs| - i
  {
    if i >= |cs| then (false, cs)
    else
      var (found, c') := UpdateNode(cs[i], id, f);
      if found then (true, cs[i := c'])
      else UpdateFrom(cs, i + 1, id, f)
  }

  lemma {:induction false} UpdateNodeFirstMatch(path: Path, c: Comment, id: int, f: Comment -> Comment)
    ensures var es := Visit(path, c);
            var k := FirstWithId(es, id);
            var (found, c') := UpdateNode(c, id, f);
            && (found <==> k.Some?)
            && (k.None? ==> c' == c)
            && (k.Some? ==>
                  && |es[k.value].path| >= |path|
                  && c' == ReplaceNode(c, es[k.value].path[|path|..], f(es[k.value].node)))
    decreases c
  {
    var es := Visit(path, c);
    var rest := VisitFrom(path, Children(c), 0);
    assert es == [Entry(path, c)] + rest;
    FirstWithIdConcat([Entry(path, c)], rest, id);
    if c.id == id {
      assert es[0].path[|path|..] == [];
    } else if c.state.Expanded? {
      var ch := c.state.children;
      UpdateFromFirstMatch(path, ch, 0, id, f);
      match FirstWithId(rest, id)
      case None =>
      case Some(j) =>
        VisitFromMembers(path, ch, 0, rest[j]);
        assert es[1 + j] == rest[j];
    } else {
      assert rest == [];
    }
  }

  lemma {:induction false} UpdateFromFirstMatch(prefix: Path, cs: seq<Comment>, i: nat, id: int, f: Comment -> Comment)
    ensures var es := VisitFrom(prefix, cs, i);
            var k := FirstWithId(es, id);
            var (found, cs') := UpdateFrom(cs, i, id, f);
            && (found <==> k.Some?)
            && (k.None? ==> cs' == cs)
            && (k.Some? ==>
                  && |es[k.value].path| > |prefix|
                  && cs' == ReplaceList(cs, es[k.value].path[|prefix|..], f(es[k.value].node)))
    decreases cs, |cs| - i
  {
    if i < |cs| {
      var p := prefix + [i];
      var x := Visit(p, cs[i]);
      var y := VisitFrom(prefix, cs, i + 1);
      VisitFromStep(prefix, cs, i);
      FirstWithIdConcat(x, y, id);
      UpdateNodeFirstMatch(p, cs[i], id, f);
      UpdateFromFirstMatch(prefix, cs, i + 1, id, f);
      match FirstWithId(x, id)
      case Some(a) =>
        var e := x[a];
        assert (x + y)[a] == e;
        VisitMembers(p, cs[i], e);
        ChildPathStep(prefix, i, e.path);
        var q := e.path[|prefix|..];
        assert ReplaceList(cs, q, f(e.node)) == cs[i := ReplaceNode(cs[i], q[1..], f(e.node))];
      case None =>
        assert UpdateNode(cs[i], id, f).1 == cs[i];
        match FirstWithId(y, id)
        case None =>
        case Some(b) =>
          assert (x + y)[|x| + b] == y[b];
          VisitFromMembers(prefix, cs, i + 1, y[b]);
    }
  }

  /** `update_comment_by_id` on the top-level list. */
  function UpdateById(cs: seq<Comment>, id: int, f: Comment -> Comment): (bool, seq<Comment>)
  {
    UpdateFrom(cs, 0, id, f)
  }

  /** The update reports a match exactly when some node with the id is in
      the projection (that is, reachable through `Expanded` nodes); without
      one it leaves the tree as it was; with one it applies `f` to the
      first such node in pre-order and to nothing else. */
  lemma UpdateByIdFirstMatch(cs: seq<Comment>, id: int, f: Comment -> Comment)
    ensures var es := Projection(cs);
            var k := FirstWithId(es, id);
            var (found, cs') := UpdateById(cs, id, f);
            && (found <==> exists j :: 0 <= j < |es| && es[j].node.id == id)
            && (!found ==> cs' == cs)
            && (found ==>
                  && |es[k.value].path| > 0
                  && LookupList(cs, es[k.value].path) == Some(es[k.value].node)
                  && cs' == ReplaceList(cs, es[k.value].path, f(es[k.value].node)))
  {
    var es := Projection(cs);
    UpdateFromFirstMatch([], cs, 0, id, f);
    var k := FirstWithId(es, id);
    if k.Some? {
      assert es[k.value].path[0..] == es[k.value].path;
      ProjectionResolves(cs, k.value);
    }
  }

  /** The same in terms of paths: a match is found exactly when a path
      reaches a node with the id. */
  lemma UpdateByIdFoundIffReachable(cs: seq<Comment>, id: int, f: Comment -> Comment)
    ensures UpdateById(cs, id, f).0 <==>
              exists p :: LookupList(cs, p).Some? && LookupList(cs, p).value.id == id
  {
    UpdateByIdFirstMatch(cs, id, f);
    var es := Projection(cs);
    if UpdateById(cs, id, f).0 {
      var j :| 0 <= j < |es| && es[j].node.id == id;
      ProjectionResolves(cs, j);
    }
    if p :| LookupList(cs, p).Some? && LookupList(cs, p).value.id == id {
      var e := Entry(p, LookupList(cs, p).value);
      ProjectionMembers(cs, e);
      var j :| 0 <= j < |es| && es[j] == e;
    }
  }
}

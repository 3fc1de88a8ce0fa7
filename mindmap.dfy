/** The mind-map screen: a recursive walk that renders each node of the
    tree with the depth it was reached at, children in their stored order
    below their parent. The rendered output is modelled as the pre-order
    list of (id, text, depth) entries the walk emits. */
module MindMap {
  import opened Types

  /** One rendered node. */
  datatype Entry = Entry(id: string, text: string, depth: nat)

  function EntryOf(n: MindMapNode, depth: nat): Entry
  {
    Entry(n.id, n.text, depth)
  }

  /** The node component: the node itself, then each child one level
      deeper. It renders one entry per node of the subtree, its own first. */
  function Render(n: MindMapNode, depth: nat): (r: seq<Entry>)
    decreases n
    ensures |r| == Size(n)
    ensures r[0] == EntryOf(n, depth)
  {
    [EntryOf(n, depth)] + RenderChildren(n.children, depth + 1)
  }

  /** The children of a node, in order, all at the same depth: one entry
      per node of their subtrees, and none when there are no children. */
  function RenderChildren(cs: seq<MindMapNode>, depth: nat): (r: seq<Entry>)
    decreases cs
    ensures |r| == SizeAll(cs)
    ensures r == [] <==> cs == []
  {
    if cs == [] then [] else Render(cs[0], depth) + RenderChildren(cs[1..], depth)
  }

  /** The screen's root call: the root first at depth 0, every other node
      deeper, one entry per node of the tree. */
  function RenderMap(root: MindMapNode): (r: seq<Entry>)
    ensures |r| == Size(root)
    ensures r[0] == EntryOf(root, 0)
    ensures forall k :: 1 <= k < |r| ==> r[k].depth > 0
  {
    RenderDepths(root, 0);
    Render(root, 0)
  }

  /** The number of nodes in a tree. */
  function Size(n: MindMapNode): nat
    decreases n
  {
    1 + SizeAll(n.children)
  }

  function SizeAll(cs: seq<MindMapNode>): nat
    decreases cs
  {
    if cs == [] then 0 else Size(cs[0]) + SizeAll(cs[1..])
  }

  /** How a rendered node is styled: indented with a left border, marked with
      a chevron, or given the root's filled style. */
  datatype NodeStyle = NodeStyle(indented: bool, chevron: bool, rootStyled: bool)

  function StyleFor(depth: nat): NodeStyle
  {
    NodeStyle(depth > 0, depth > 0, depth == 0)
  }

  // ---------------------------------------------------------------------
  // Size and depth

  /** A leaf is rendered as exactly one entry. */
  lemma LeafRendersOnce(n: MindMapNode, depth: nat)
    requires n.children == []
    ensures Render(n, depth) == [EntryOf(n, depth)]
  {
  }

  // ---------------------------------------------------------------------
  // Depth

  /** Every entry of a subtree rendered at `depth` is at least that deep,
      and every entry after the subtree's root is strictly deeper. */
  lemma {:induction false} RenderDepths(n: MindMapNode, depth: nat)
    decreases n, 1
    ensures forall k :: 1 <= k < |Render(n, depth)| ==> Render(n, depth)[k].depth > depth
  {
    RenderChildrenDepths(n.children, depth + 1);
  }

  lemma {:induction false} RenderChildrenDepths(cs: seq<MindMapNode>, depth: nat)
    decreases cs, 0
    ensures forall k :: 0 <= k < |RenderChildren(cs, depth)| ==> RenderChildren(cs, depth)[k].depth >= depth
  {
    if cs != [] {
      RenderDepths(cs[0], depth);
      RenderChildrenDepths(cs[1..], depth);
    }
  }

  /** In the screen's rendering the root comes first at depth 0 with the
      root style, and every other node is indented with a chevron. */
  lemma RootStyledOnlyFirst(root: MindMapNode)
    ensures RenderMap(root)[0] == EntryOf(root, 0)
    ensures StyleFor(RenderMap(root)[0].depth).rootStyled
    ensures forall k :: 1 <= k < |RenderMap(root)| ==>
      StyleFor(RenderMap(root)[k].depth).indented && !StyleFor(RenderMap(root)[k].depth).rootStyled
  {
  }

  // ---------------------------------------------------------------------
  // Order: children are rendered in their stored order

  /** The number of nodes in the subtrees of the first `i` children. */
  function SizeBefore(cs: seq<MindMapNode>, i: nat): nat
    requires i <= |cs|
    decreases i
  {
    if i == 0 then 0 else Size(cs[0]) + SizeBefore(cs[1..], i - 1)
  }

  /** The rendering of child `i` sits right after the renderings of the
      children before it. */
  lemma {:induction false} ChildBlock(cs: seq<MindMapNode>, depth: nat, i: nat)
    requires i < |cs|
    decreases i
    ensures |Render(cs[i], depth)| == Size(cs[i])
    ensures SizeBefore(cs, i) + Size(cs[i]) <= |RenderChildren(cs, depth)|
    ensures forall k :: 0 <= k < |Render(cs[i], depth)| ==>
      RenderChildren(cs, depth)[SizeBefore(cs, i) + k] == Render(cs[i], depth)[k]
  {
    var head, tail := Render(cs[0], depth), RenderChildren(cs[1..], depth);
    assert RenderChildren(cs, depth) == head + tail;
    assert |head| == Size(cs[0]);
    if i > 0 {
      ChildBlock(cs[1..], depth, i - 1);
      assert cs[1..][i - 1] == cs[i];
      var off := SizeBefore(cs[1..], i - 1);
      forall k | 0 <= k < |Render(cs[i], depth)|
        ensures (head + tail)[|head| + off + k] == Render(cs[i], depth)[k]
      {
        assert tail[off + k] == Render(cs[i], depth)[k];
      }
    }
  }

  /** In a node's rendering, child `i`'s subtree starts after the node
      itself and the subtrees of its earlier siblings. */
  lemma ChildOrder(n: MindMapNode, depth: nat, childDepth: nat, i: nat)
    requires childDepth == depth + 1 && i < |n.children|
    ensures |Render(n.children[i], childDepth)| == Size(n.children[i])
    ensures 1 + SizeBefore(n.children, i) + Size(n.children[i]) <= |Render(n, depth)|
    ensures forall k :: 0 <= k < |Render(n.children[i], childDepth)| ==>
      Render(n, depth)[1 + SizeBefore(n.children, i) + k] == Render(n.children[i], childDepth)[k]
  {
    ChildBlock(n.children, childDepth, i);
  }

  // ---------------------------------------------------------------------
  // Depth is distance from the root: a traversal by paths

  /** The node reached by following child indices `p` from `n`, if any. */
  function NodeAt(n: MindMapNode, p: seq<nat>): Option<MindMapNode>
    decreases p
  {
    if p == [] then Some(n)
    else if p[0] < |n.children| then NodeAt(n.children[p[0]], p[1..])
    else None
  }

  /** Each path with `i` put in front. */
  function Prefixed(i: nat, ps: seq<seq<nat>>): (r: seq<seq<nat>>)
    ensures |r| == |ps|
    ensures forall k :: 0 <= k < |ps| ==> r[k] == [i] + ps[k]
  {
    seq(|ps|, k requires 0 <= k < |ps| => [i] + ps[k])
  }

  /** The paths to all nodes of `n`: `n` itself first, then the nodes of
      each child subtree in turn. */
  function Paths(n: MindMapNode): seq<seq<nat>>
    decreases n, 1, 0
  {
    [[]] + ChildPaths(n, 0)
  }

  /** The paths, from `n`, into the subtrees of children `i` onward. */
  function ChildPaths(n: MindMapNode, i: nat): seq<seq<nat>>
    decreases n, 0, |n.children| - i
  {
    if i >= |n.children| then [] else Prefixed(i, Paths(n.children[i])) + ChildPaths(n, i + 1)
  }

  /** Entry `e` renders the node at path `p` of `root`, at the root's depth
      plus the length of the path. */
  predicate Located(root: MindMapNode, p: seq<nat>, e: Entry, depth: nat)
  {
    NodeAt(root, p).Some? && e == EntryOf(NodeAt(root, p).value, depth + |p|)
  }

  /** The k-th rendered entry is the node at the k-th path, and its depth is
      the starting depth plus that node's distance from the root. */
  lemma {:induction false} RenderFollowsPaths(n: MindMapNode, depth: nat)
    decreases n, 1, 0
    ensures |Paths(n)| == |Render(n, depth)|
    ensures forall k :: 0 <= k < |Render(n, depth)| ==> Located(n, Paths(n)[k], Render(n, depth)[k], depth)
  {
    ChildrenFollowPaths(n, 0, depth);
    assert n.children[0..] == n.children;
  }

  lemma {:induction false} ChildrenFollowPaths(n: MindMapNode, i: nat, depth: nat)
    requires i <= |n.children|
    decreases n, 0, |n.children| - i
    ensures |ChildPaths(n, i)| == |RenderChildren(n.children[i..], depth + 1)|
    ensures forall k :: 0 <= k < |ChildPaths(n, i)| ==>
      Located(n, ChildPaths(n, i)[k], RenderChildren(n.children[i..], depth + 1)[k], depth)
  {
    if i < |n.children| {
      var c := n.children[i];
      var cs := n.children[i..];
      assert cs[0] == c && cs[1..] == n.children[i + 1..];
      RenderFollowsPaths(c, depth + 1);
      ChildrenFollowPaths(n, i + 1, depth);
      var head := Render(c, depth + 1);
      var tail := RenderChildren(n.children[i + 1..], depth + 1);
      var heads := Prefixed(i, Paths(c));
      var tails := ChildPaths(n, i + 1);
      assert RenderChildren(cs, depth + 1) == head + tail;
      assert ChildPaths(n, i) == heads + tails;
      forall k | 0 <= k < |heads|
        ensures Located(n, heads[k], head[k], depth)
      {
        var q := Paths(c)[k];
        assert heads[k][1..] == q;
      }
    }
  }

  /** Every rendered entry is at the root's depth plus its distance from the root. */
  lemma DepthIsDistance(root: MindMapNode, k: nat)
    requires k < |RenderMap(root)|
    ensures |Paths(root)| == |RenderMap(root)|
    ensures NodeAt(root, Paths(root)[k]).Some?
    ensures NodeAt(root, Paths(root)[k]).value.id == RenderMap(root)[k].id
    ensures NodeAt(root, Paths(root)[k]).value.text == RenderMap(root)[k].text
    ensures RenderMap(root)[k].depth == |Paths(root)[k]|
  {
    RenderFollowsPaths(root, 0);
    assert Located(root, Paths(root)[k], RenderMap(root)[k], 0);
  }

  /** In the screen's rendering a node gets the root style exactly when it
      is the root (its path is empty), and the indentation, border and
      chevron exactly when it is not. */
  lemma StyleMatchesPosition(root: MindMapNode, k: nat)
    requires k < |RenderMap(root)|
    ensures |Paths(root)| == |RenderMap(root)|
    ensures StyleFor(RenderMap(root)[k].depth).rootStyled <==> Paths(root)[k] == []
    ensures StyleFor(RenderMap(root)[k].depth).indented <==> Paths(root)[k] != []
    ensures StyleFor(RenderMap(root)[k].depth).chevron <==> Paths(root)[k] != []
  {
    DepthIsDistance(root, k);
  }

  // ---------------------------------------------------------------------
  // Every node exactly once

  /** Every node of the tree has its path in the traversal. */
  lemma {:induction false} PathsCover(n: MindMapNode, p: seq<nat>)
    requires NodeAt(n, p).Some?
    decreases p
    ensures p in Paths(n)
  {
    if p == [] {
      assert Paths(n)[0] == p;
    } else {
      var j := p[0];
      PathsCover(n.children[j], p[1..]);
      ChildPathsCover(n, 0, j, p[1..]);
      assert p == [j] + p[1..];
    }
  }

  lemma {:induction false} ChildPathsCover(n: MindMapNode, i: nat, j: nat, q: seq<nat>)
    requires i <= j < |n.children|
    requires q in Paths(n.children[j])
    decreases j - i
    ensures [j] + q in ChildPaths(n, i)
  {
    if i == j {
      var k :| 0 <= k < |Paths(n.children[j])| && Paths(n.children[j])[k] == q;
      assert Prefixed(j, Paths(n.children[j]))[k] == [j] + q;
    } else {
      ChildPathsCover(n, i + 1, j, q);
    }
  }

  predicate NoDuplicates(ps: seq<seq<nat>>)
  {
    forall a, b :: 0 <= a < b < |ps| ==> ps[a] != ps[b]
  }

  /** Paths into children `i` onward are non-empty and start at `i` or later. */
  lemma ChildPathsStart(n: MindMapNode, i: nat)
    decreases |n.children| - i
    ensures forall k :: 0 <= k < |ChildPaths(n, i)| ==> |ChildPaths(n, i)[k]| > 0 && ChildPaths(n, i)[k][0] >= i
  {
    if i < |n.children| {
      ChildPathsStart(n, i + 1);
    }
  }

  /** No path appears twice, so no node is rendered twice. */
  lemma {:induction false} PathsDistinct(n: MindMapNode)
    decreases n, 1, 0
    ensures NoDuplicates(Paths(n))
  {
    ChildPathsDistinct(n, 0);
    ChildPathsStart(n, 0);
    var ps := Paths(n);
    forall a, b | 0 <= a < b < |ps|
      ensures ps[a] != ps[b]
    {
      if a == 0 {
        assert ps[b] == ChildPaths(n, 0)[b - 1];
      } else {
        assert ps[a] == ChildPaths(n, 0)[a - 1] && ps[b] == ChildPaths(n, 0)[b - 1];
      }
    }
  }

  lemma {:induction false} ChildPathsDistinct(n: MindMapNode, i: nat)
    decreases n, 0, |n.children| - i
    ensures NoDuplicates(ChildPaths(n, i))
  {
    if i < |n.children| {
      var heads := Prefixed(i, Paths(n.children[i]));
      var tails := ChildPaths(n, i + 1);
      PathsDistinct(n.children[i]);
      ChildPathsDistinct(n, i + 1);
      ChildPathsStart(n, i + 1);
      var ps := heads + tails;
      forall a, b | 0 <= a < b < |ps|
        ensures ps[a] != ps[b]
      {
        if b < |heads| {
          assert ps[a][1..] == Paths(n.children[i])[a];
          assert ps[b][1..] == Paths(n.children[i])[b];
        } else if a >= |heads| {
          assert ps[a] == tails[a - |heads|] && ps[b] == tails[b - |heads|];
        } else {
          assert ps[a][0] == i;
          assert ps[b] == tails[b - |heads|];
        }
      }
    }
  }

  /** The walk renders every node of the tree exactly once: the k-th entry
      renders the node at the k-th path, each node's path is among them,
      no path occurs twice, and the number of entries is the tree's size. */
  lemma EachNodeOnce(root: MindMapNode)
    ensures |RenderMap(root)| == |Paths(root)| == Size(root)
    ensures forall k :: 0 <= k < |RenderMap(root)| ==> Located(root, Paths(root)[k], RenderMap(root)[k], 0)
    ensures forall p :: NodeAt(root, p).Some? ==> p in Paths(root)
    ensures NoDuplicates(Paths(root))
  {
    RenderFollowsPaths(root, 0);
    PathsDistinct(root);
    forall p | NodeAt(root, p).Some?
      ensures p in Paths(root)
    {
      PathsCover(root, p);
    }
  }
}

/** The bounds tree: nodes in one flat list linked by indices, searched with pruning
    and grown in place by descent, splitting and upward propagation. */
module BoundsTrees {
  import opened Wrappers
  import opened Geometry
  import opened ZOrder

  const MAX_CHILDREN: nat := 12

  /** `children` is the used part of the fixed-size child array. */
  datatype NodeKind = Leaf(order: nat) | Internal(children: seq<nat>)

  datatype Node = Node(bounds: Bounds, maxOrder: nat, kind: NodeKind)

  /** Where a node hangs: its parent, its distance from the root and, for a leaf,
      the number of the insertion it came from. */
  datatype Link = Link(parent: nat, depth: nat, slot: nat)

  ghost predicate Distinct(s: seq<nat>) {
    forall j, k :: 0 <= j < k < |s| ==> s[j] != s[k]
  }

  // ----- shape -----

  ghost predicate HasParent(nodes: seq<Node>, links: seq<Link>, n: nat)
    requires |links| == |nodes| && n < |nodes|
  {
    var p := links[n].parent;
    && p < |nodes|
    && nodes[p].kind.Internal?
    && n in nodes[p].kind.children
    && links[n].depth == links[p].depth + 1
  }

  ghost predicate OwnsChildren(nodes: seq<Node>, links: seq<Link>, root: nat, n: nat)
    requires |links| == |nodes| && n < |nodes|
  {
    nodes[n].kind.Internal? ==>
      var cs := nodes[n].kind.children;
      && 2 <= |cs| <= MAX_CHILDREN
      && (forall k :: 0 <= k < |cs| ==> cs[k] < |nodes| && cs[k] != root && links[cs[k]].parent == n)
      && Distinct(cs)
  }

  /** The nodes form one rooted tree: every node but the root is listed by exactly one parent,
      exactly once, one level deeper; no node lists the root. */
  ghost predicate Linked(nodes: seq<Node>, links: seq<Link>, root: nat) {
    && |links| == |nodes| && root < |nodes| && links[root].depth == 0
    && (forall n :: 0 <= n < |nodes| && n != root ==> HasParent(nodes, links, n))
    && (forall n :: 0 <= n < |nodes| ==> OwnsChildren(nodes, links, root, n))
  }

  /** `n` is `a` or below it. */
  ghost predicate Under(nodes: seq<Node>, links: seq<Link>, root: nat, a: nat, n: nat)
    requires Linked(nodes, links, root) && n < |nodes|
    decreases links[n].depth
  {
    n == a || (n != root && HasParent(nodes, links, n) && Under(nodes, links, root, a, links[n].parent))
  }

  lemma {:induction false} RootIsAboveAll(nodes: seq<Node>, links: seq<Link>, root: nat, n: nat)
    requires Linked(nodes, links, root) && n < |nodes|
    ensures Under(nodes, links, root, root, n)
    decreases links[n].depth
  {
    if n != root {
      assert HasParent(nodes, links, n);
      RootIsAboveAll(nodes, links, root, links[n].parent);
    }
  }

  /** No cycles: a proper descendant is strictly deeper. */
  lemma {:induction false} DescendantIsDeeper(nodes: seq<Node>, links: seq<Link>, root: nat, a: nat, n: nat)
    requires Linked(nodes, links, root) && n < |nodes| && Under(nodes, links, root, a, n) && a != n
    ensures a < |nodes| && links[a].depth < links[n].depth
    ensures !Under(nodes, links, root, n, a)
    decreases links[n].depth
  {
    var p := links[n].parent;
    assert HasParent(nodes, links, n);
    if p != a {
      DescendantIsDeeper(nodes, links, root, a, p);
    }
    if Under(nodes, links, root, n, a) {
      UnderIsDeeper(nodes, links, root, n, a);
    }
  }

  lemma {:induction false} UnderIsDeeper(nodes: seq<Node>, links: seq<Link>, root: nat, a: nat, n: nat)
    requires Linked(nodes, links, root) && n < |nodes| && Under(nodes, links, root, a, n)
    ensures a < |nodes| && links[a].depth <= links[n].depth
    decreases links[n].depth
  {
    if a != n {
      UnderIsDeeper(nodes, links, root, a, links[n].parent);
    }
  }

  /** No sharing: a node is a child of one node only, at one position only. */
  lemma OneParentOnePlace(nodes: seq<Node>, links: seq<Link>, root: nat, a: nat, b: nat, i: nat, j: nat)
    requires Linked(nodes, links, root) && a < |nodes| && b < |nodes|
    requires nodes[a].kind.Internal? && i < |nodes[a].kind.children|
    requires nodes[b].kind.Internal? && j < |nodes[b].kind.children|
    requires nodes[a].kind.children[i] == nodes[b].kind.children[j]
    ensures a == b && i == j
  {
    assert OwnsChildren(nodes, links, root, a) && OwnsChildren(nodes, links, root, b);
  }

  lemma {:induction false} NothingUnderLeaf(nodes: seq<Node>, links: seq<Link>, root: nat, a: nat, n: nat)
    requires Linked(nodes, links, root) && n < |nodes| && Under(nodes, links, root, a, n)
    requires a < |nodes| && nodes[a].kind.Leaf?
    ensures a == n
    decreases links[n].depth
  {
    if a != n {
      NothingUnderLeaf(nodes, links, root, a, links[n].parent);
    }
  }

  /** A proper descendant lies under one of the children. */
  lemma {:induction false} UnderSomeChild(nodes: seq<Node>, links: seq<Link>, root: nat, a: nat, n: nat)
    returns (c: nat)
    requires Linked(nodes, links, root) && n < |nodes| && Under(nodes, links, root, a, n) && a != n
    ensures a < |nodes| && nodes[a].kind.Internal?
    ensures c < |nodes| && c != root && links[c].parent == a && c in nodes[a].kind.children
    ensures Under(nodes, links, root, c, n)
    decreases links[n].depth
  {
    if links[n].parent == a {
      c := n;
    } else {
      c := UnderSomeChild(nodes, links, root, a, links[n].parent);
    }
  }

  // ----- labels -----

  ghost predicate EdgeOk(nodes: seq<Node>, p: nat, c: nat)
    requires p < |nodes| && c < |nodes|
  {
    nodes[p].bounds.Covers(nodes[c].bounds) && nodes[c].maxOrder <= nodes[p].maxOrder
  }

  /** The last child carries the maximum of the node. */
  ghost predicate LastOk(nodes: seq<Node>, n: nat)
    requires n < |nodes|
  {
    nodes[n].kind.Internal? ==>
      var cs := nodes[n].kind.children;
      cs != [] && cs[|cs| - 1] < |nodes| && nodes[cs[|cs| - 1]].maxOrder == nodes[n].maxOrder
  }

  ghost predicate LeafOk(nodes: seq<Node>, n: nat)
    requires n < |nodes|
  {
    nodes[n].kind.Leaf? ==> nodes[n].maxOrder == nodes[n].kind.order
  }

  ghost predicate EdgeAboveOk(nodes: seq<Node>, links: seq<Link>, n: nat)
    requires |links| == |nodes| && n < |nodes|
  {
    HasParent(nodes, links, n) && EdgeOk(nodes, links[n].parent, n)
  }

  ghost predicate EdgesOk(nodes: seq<Node>, links: seq<Link>, root: nat)
    requires |links| == |nodes|
  {
    forall n :: 0 <= n < |nodes| && n != root ==> EdgeAboveOk(nodes, links, n)
  }

  ghost predicate LastsOk(nodes: seq<Node>) {
    forall n :: 0 <= n < |nodes| ==> LastOk(nodes, n)
  }

  ghost predicate LeavesOk(nodes: seq<Node>) {
    forall n :: 0 <= n < |nodes| ==> LeafOk(nodes, n)
  }

  ghost predicate Labelled(nodes: seq<Node>, links: seq<Link>, root: nat)
    requires |links| == |nodes|
  {
    EdgesOk(nodes, links, root) && LastsOk(nodes) && LeavesOk(nodes)
  }

  /** A node's box covers, and its maximum bounds, everything below it. */
  lemma {:induction false} LabelsBoundSubtree(nodes: seq<Node>, links: seq<Link>, root: nat, a: nat, n: nat)
    requires Linked(nodes, links, root) && Labelled(nodes, links, root)
    requires n < |nodes| && Under(nodes, links, root, a, n)
    ensures a < |nodes| && nodes[a].bounds.Covers(nodes[n].bounds) && nodes[n].maxOrder <= nodes[a].maxOrder
    decreases links[n].depth
  {
    if a != n {
      assert EdgeAboveOk(nodes, links, n);
      LabelsBoundSubtree(nodes, links, root, a, links[n].parent);
    }
  }

  /** The maximum of a node is attained by a leaf below it: follow the last children. */
  lemma {:induction false} MaxIsAttained(nodes: seq<Node>, links: seq<Link>, root: nat, a: nat) returns (leaf: nat)
    requires Linked(nodes, links, root) && Labelled(nodes, links, root) && a < |nodes|
    ensures leaf < |nodes| && nodes[leaf].kind.Leaf? && nodes[leaf].maxOrder == nodes[a].maxOrder
    ensures Under(nodes, links, root, a, leaf)
    decreases MaxDepth(links) - links[a].depth
  {
    DepthBounded(links, a);
    if nodes[a].kind.Leaf? {
      leaf := a;
    } else {
      var cs := nodes[a].kind.children;
      assert OwnsChildren(nodes, links, root, a) && LastOk(nodes, a);
      var c := cs[|cs| - 1];
      assert HasParent(nodes, links, c);
      DepthBounded(links, c);
      leaf := MaxIsAttained(nodes, links, root, c);
      UnderTransitive(nodes, links, root, a, c, leaf);
    }
  }

  lemma {:induction false} UnderTransitive(nodes: seq<Node>, links: seq<Link>, root: nat, a: nat, b: nat, n: nat)
    requires Linked(nodes, links, root) && n < |nodes| && b < |nodes|
    requires Under(nodes, links, root, a, b) && Under(nodes, links, root, b, n)
    ensures Under(nodes, links, root, a, n)
    decreases links[n].depth
  {
    if b != n {
      UnderTransitive(nodes, links, root, a, b, links[n].parent);
    }
  }

  ghost function MaxDepth(links: seq<Link>): nat {
    if links == [] then 0
    else
      var n := |links| - 1;
      var rest := MaxDepth(links[..n]);
      if rest < links[n].depth then links[n].depth else rest
  }

  lemma {:induction false} DepthBounded(links: seq<Link>, n: nat)
    requires n < |links|
    ensures links[n].depth <= MaxDepth(links)
  {
    if n < |links| - 1 {
      DepthBounded(links[..|links| - 1], n);
    }
  }

  // ----- the insertions recorded in the leaves -----

  ghost predicate Records(nodes: seq<Node>, links: seq<Link>, leafOf: seq<nat>, log: seq<Bounds>, orders: seq<nat>)
    requires |links| == |nodes|
  {
    && |leafOf| == |log| == |orders|
    && (forall k :: 0 <= k < |log| ==>
          && leafOf[k] < |nodes|
          && nodes[leafOf[k]] == Node(log[k], orders[k], Leaf(orders[k]))
          && links[leafOf[k]].slot == k)
    && (forall n :: 0 <= n < |nodes| && nodes[n].kind.Leaf? ==>
          links[n].slot < |log| && leafOf[links[n].slot] == n)
  }

  /** Everything the tree keeps between operations. */
  ghost predicate Consistent(nodes: seq<Node>, links: seq<Link>, root: Option<nat>, maxLeaf: Option<nat>,
                             leafOf: seq<nat>, log: seq<Bounds>, orders: seq<nat>)
  {
    && |links| == |nodes|
    && Records(nodes, links, leafOf, log, orders)
    && match (root, maxLeaf)
       case (None, None) => nodes == []
       case (Some(r), Some(m)) =>
         && Linked(nodes, links, r)
         && Labelled(nodes, links, r)
         && m < |nodes| && nodes[m].kind.Leaf?
         && forall k :: 0 <= k < |log| ==> orders[k] <= nodes[m].maxOrder
       case _ => false
  }

  // ----- search -----

  /** Some entry of the stack is above `n`. */
  ghost predicate Reached(nodes: seq<Node>, links: seq<Link>, root: nat, stack: seq<nat>, n: nat)
    requires Linked(nodes, links, root) && n < |nodes|
  {
    exists j :: 0 <= j < |stack| && Under(nodes, links, root, stack[j], n)
  }

  /** Every recorded bounds that meets the query either no longer matters or is still below the stack. */
  ghost predicate SearchCovers(nodes: seq<Node>, links: seq<Link>, root: nat, leafOf: seq<nat>, log: seq<Bounds>,
                               orders: seq<nat>,
                               stack: seq<nat>, query: Bounds, maxFound: nat)
    requires Linked(nodes, links, root) && Records(nodes, links, leafOf, log, orders)
  {
    forall k :: 0 <= k < |log| && query.Intersects(log[k]) ==>
      orders[k] <= maxFound || Reached(nodes, links, root, stack, leafOf[k])
  }

  /** The children worth pushing: those whose maximum exceeds what was found. */
  function Improving(nodes: seq<Node>, cs: seq<nat>, maxFound: nat): (r: seq<nat>)
    requires forall k :: 0 <= k < |cs| ==> cs[k] < |nodes|
    ensures forall c :: c in r <==> c in cs && maxFound < nodes[c].maxOrder
  {
    if cs == [] then []
    else
      var n := |cs| - 1;
      var rest := Improving(nodes, cs[..n], maxFound);
      if maxFound < nodes[cs[n]].maxOrder then rest + [cs[n]] else rest
  }

  lemma {:induction false} ImprovingDistinct(nodes: seq<Node>, cs: seq<nat>, maxFound: nat)
    requires forall k :: 0 <= k < |cs| ==> cs[k] < |nodes|
    requires Distinct(cs)
    ensures Distinct(Improving(nodes, cs, maxFound))
  {
    if cs != [] {
      var n := |cs| - 1;
      ImprovingDistinct(nodes, cs[..n], maxFound);
      var rest := Improving(nodes, cs[..n], maxFound);
      assert cs[n] !in rest;
    }
  }

  /** The running maximum is 0 or the order of a recorded bounds that meets the query. */
  ghost predicate Attained(log: seq<Bounds>, orders: seq<nat>, query: Bounds, maxFound: nat)
    requires |orders| == |log|
  {
    maxFound == 0 || exists k :: 0 <= k < |log| && query.Intersects(log[k]) && orders[k] == maxFound
  }

  /** A node may be dropped when its maximum cannot improve the result or its box misses the query. */
  lemma DropPruned(nodes: seq<Node>, links: seq<Link>, root: nat, leafOf: seq<nat>, log: seq<Bounds>, orders: seq<nat>,
                   rest: seq<nat>, top: nat, query: Bounds, maxFound: nat)
    requires Linked(nodes, links, root) && Labelled(nodes, links, root)
    requires Records(nodes, links, leafOf, log, orders)
    requires top < |nodes|
    requires SearchCovers(nodes, links, root, leafOf, log, orders, rest + [top], query, maxFound)
    requires nodes[top].maxOrder <= maxFound || !query.Intersects(nodes[top].bounds)
    ensures SearchCovers(nodes, links, root, leafOf, log, orders, rest, query, maxFound)
  {
    forall k | 0 <= k < |log| && query.Intersects(log[k])
      ensures orders[k] <= maxFound || Reached(nodes, links, root, rest, leafOf[k])
    {
      if maxFound < orders[k] {
        var stack := rest + [top];
        var j :| 0 <= j < |stack| && Under(nodes, links, root, stack[j], leafOf[k]);
        if j == |rest| {
          LabelsBoundSubtree(nodes, links, root, top, leafOf[k]);
          assert false;
        } else {
          assert Under(nodes, links, root, rest[j], leafOf[k]);
        }
      }
    }
  }

  /** A leaf may be dropped once its own order has been taken into account. */
  lemma DropLeaf(nodes: seq<Node>, links: seq<Link>, root: nat, leafOf: seq<nat>, log: seq<Bounds>, orders: seq<nat>,
                 rest: seq<nat>, top: nat, query: Bounds, maxFound: nat, newMax: nat)
    requires Linked(nodes, links, root) && Records(nodes, links, leafOf, log, orders)
    requires top < |nodes| && nodes[top].kind.Leaf?
    requires SearchCovers(nodes, links, root, leafOf, log, orders, rest + [top], query, maxFound)
    requires maxFound <= newMax && nodes[top].kind.order <= newMax
    ensures SearchCovers(nodes, links, root, leafOf, log, orders, rest, query, newMax)
  {
    forall k | 0 <= k < |log| && query.Intersects(log[k])
      ensures orders[k] <= newMax || Reached(nodes, links, root, rest, leafOf[k])
    {
      if newMax < orders[k] {
        var stack := rest + [top];
        var j :| 0 <= j < |stack| && Under(nodes, links, root, stack[j], leafOf[k]);
        if j == |rest| {
          NothingUnderLeaf(nodes, links, root, top, leafOf[k]);
          assert false;
        } else {
          assert Under(nodes, links, root, rest[j], leafOf[k]);
        }
      }
    }
  }

  /** An internal node may be replaced by its improving children. */
  lemma ExpandTop(nodes: seq<Node>, links: seq<Link>, root: nat, leafOf: seq<nat>, log: seq<Bounds>, orders: seq<nat>,
                  rest: seq<nat>, top: nat, query: Bounds, maxFound: nat)
    requires Linked(nodes, links, root) && Labelled(nodes, links, root)
    requires Records(nodes, links, leafOf, log, orders)
    requires top < |nodes| && nodes[top].kind.Internal? && OwnsChildren(nodes, links, root, top)
    requires SearchCovers(nodes, links, root, leafOf, log, orders, rest + [top], query, maxFound)
    ensures SearchCovers(nodes, links, root, leafOf, log, orders,
                         rest + Improving(nodes, nodes[top].kind.children, maxFound), query, maxFound)
  {
    var pushed := Improving(nodes, nodes[top].kind.children, maxFound);
    forall k | 0 <= k < |log| && query.Intersects(log[k])
      ensures orders[k] <= maxFound || Reached(nodes, links, root, rest + pushed, leafOf[k])
    {
      if maxFound < orders[k] {
        var stack := rest + [top];
        var j :| 0 <= j < |stack| && Under(nodes, links, root, stack[j], leafOf[k]);
        if j == |rest| {
          var c := UnderSomeChild(nodes, links, root, top, leafOf[k]);
          LabelsBoundSubtree(nodes, links, root, c, leafOf[k]);
          assert c in pushed;
          var i :| 0 <= i < |pushed| && pushed[i] == c;
          assert (rest + pushed)[|rest| + i] == c;
        } else {
          assert (rest + pushed)[j] == rest[j];
        }
      }
    }
  }

  ghost function IndexSet(n: nat): (s: set<nat>)
    ensures forall i: nat :: i in s <==> i < n
  {
    if n == 0 then {} else IndexSet(n - 1) + {n - 1}
  }

  /** The stack is a frontier: no node twice, none already expanded, and only the root or
      children of expanded nodes. With it every node is expanded at most once. */
  ghost predicate Frontier(nodes: seq<Node>, links: seq<Link>, root: nat, stack: seq<nat>, expanded: set<nat>)
    requires |links| == |nodes|
  {
    && (forall j :: 0 <= j < |stack| ==>
          stack[j] < |nodes| && stack[j] !in expanded && (stack[j] == root || links[stack[j]].parent in expanded))
    && Distinct(stack)
    && expanded <= IndexSet(|nodes|)
    && (forall e :: e in expanded ==> e < |nodes| && (e == root || links[e].parent in expanded))
  }

  lemma ExpandFrontier(nodes: seq<Node>, links: seq<Link>, root: nat, rest: seq<nat>, top: nat, pushed: seq<nat>,
                       expanded: set<nat>)
    requires Linked(nodes, links, root)
    requires Frontier(nodes, links, root, rest + [top], expanded)
    requires top < |nodes| && nodes[top].kind.Internal?
    requires forall c :: c in pushed ==> c in nodes[top].kind.children
    requires Distinct(pushed)
    ensures Frontier(nodes, links, root, rest + pushed, expanded + {top})
  {
    assert OwnsChildren(nodes, links, root, top);
    var before := rest + [top];
    assert before[|rest|] == top && top !in expanded;
    forall j | 0 <= j < |rest|
      ensures rest[j] < |nodes| && rest[j] != top && rest[j] !in expanded
      ensures rest[j] == root || links[rest[j]].parent in expanded
    {
      assert before[j] == rest[j];
    }
    forall c | c in pushed
      ensures c < |nodes| && c != root && links[c].parent == top && c !in expanded && c != top
    {
      assert HasParent(nodes, links, c);
    }
    forall j | 0 <= j < |rest + pushed|
      ensures var n := (rest + pushed)[j];
              n < |nodes| && n !in expanded + {top} && (n == root || links[n].parent in expanded + {top})
    {
      if j >= |rest| {
        assert (rest + pushed)[j] == pushed[j - |rest|] && pushed[j - |rest|] in pushed;
      }
    }
    forall i, j | 0 <= i < j < |rest + pushed|
      ensures (rest + pushed)[i] != (rest + pushed)[j]
    {
      if j < |rest| {
        assert before[i] != before[j];
      } else if i < |rest| {
        assert pushed[j - |rest|] in pushed;
      }
    }
  }

  // ----- insertion -----

  function MaxOf(a: nat, b: nat): nat {
    if a < b then b else a
  }

  function Swap(s: seq<nat>, i: nat, j: nat): seq<nat>
    requires i < |s| && j < |s|
  {
    s[i := s[j]][j := s[i]]
  }

  function IndexOf(s: seq<nat>, x: nat): (r: Option<nat>)
    ensures r.None? ==> x !in s
    ensures r.Some? ==> r.value < |s| && s[r.value] == x
  {
    if s == [] then None
    else if s[0] == x then Some(0)
    else
      match IndexOf(s[1..], x)
      case None => None
      case Some(k) => Some(k + 1)
  }

  /** The same elements in another order. */
  ghost predicate Rearranged(before: seq<nat>, after: seq<nat>) {
    && |before| == |after|
    && (forall x :: x in before <==> x in after)
    && (Distinct(before) ==> Distinct(after))
  }

  lemma ReplacementIsDistinct(s: seq<nat>, pos: nat, x: nat)
    requires Distinct(s) && pos < |s| && x !in s
    ensures Distinct(s[pos := x])
  {
  }

  lemma AdditionIsDistinct(s: seq<nat>, x: nat)
    requires Distinct(s) && x !in s
    ensures Distinct(s + [x])
  {
  }

  lemma SwapRearranges(s: seq<nat>, i: nat, j: nat)
    requires i < |s| && j < |s|
    ensures Rearranged(s, Swap(s, i, j))
  {
    var t := Swap(s, i, j);
    forall x | x in s
      ensures x in t
    {
      var k :| 0 <= k < |s| && s[k] == x;
      assert t[if k == i then j else if k == j then i else k] == x;
    }
  }

  /** Two children, the one with the larger order last; on a tie the existing one. */
  function PairChildren(existing: nat, existingOrder: nat, added: nat, order: nat): seq<nat> {
    if order > existingOrder then [existing, added] else [added, existing]
  }

  /** A node with room takes the new leaf as its last child, or last but one
      when the leaf does not exceed the node's maximum. */
  function WithChild(node: Node, added: nat, bounds: Bounds, order: nat): Node
    requires node.kind.Internal? && node.kind.children != []
  {
    var cs := node.kind.children + [added];
    var last := |cs| - 1;
    Node(node.bounds.Union(bounds), MaxOf(node.maxOrder, order),
         Internal(if order <= node.maxOrder then Swap(cs, last - 1, last) else cs))
  }

  /** A full node trades the child at `pos` for a new internal node, which goes last
      when its maximum exceeds the node's. */
  function WithSplit(node: Node, pos: nat, added: nat, addedMax: nat): Node
    requires node.kind.Internal? && pos < |node.kind.children|
  {
    var cs := node.kind.children[pos := added];
    node.(kind := Internal(if addedMax > node.maxOrder then Swap(cs, pos, |cs| - 1) else cs))
  }

  function MoveToEnd(cs: seq<nat>, child: nat): seq<nat> {
    match IndexOf(cs, child)
    case None => cs
    case Some(pos) => Swap(cs, pos, |cs| - 1)
  }

  /** One step of the upward propagation: the box grows, and if the maximum grows
      the child updated just before goes last. */
  function Raised(node: Node, bounds: Bounds, order: nat, updatedChild: Option<nat>): Node
    requires node.kind.Internal?
  {
    if node.maxOrder < order then
      var cs := node.kind.children;
      Node(node.bounds.Union(bounds), order,
           Internal(if updatedChild.Some? then MoveToEnd(cs, updatedChild.value) else cs))
    else
      node.(bounds := node.bounds.Union(bounds))
  }

  /** Correct once `bounds` and `order` are taken into the parent. */
  ghost predicate EdgeSettles(nodes: seq<Node>, p: nat, c: nat, bounds: Bounds, order: nat)
    requires p < |nodes| && c < |nodes|
  {
    && nodes[p].bounds.Union(bounds).Covers(nodes[c].bounds)
    && nodes[c].maxOrder <= MaxOf(nodes[p].maxOrder, order)
  }

  ghost predicate EdgeAboveSettles(nodes: seq<Node>, links: seq<Link>, p: nat, n: nat, bounds: Bounds, order: nat)
    requires |links| == |nodes| && n < |nodes|
  {
    && HasParent(nodes, links, n)
    && EdgeSettles(nodes, links[n].parent, n, bounds, order)
    && (n != p && links[n].parent != p ==> EdgeOk(nodes, links[n].parent, n))
  }

  /** All edges are correct, except that those into and out of `p` may wait for the new leaf. */
  ghost predicate SettlingEdges(nodes: seq<Node>, links: seq<Link>, root: nat, p: nat, bounds: Bounds, order: nat)
    requires |links| == |nodes|
  {
    forall n :: 0 <= n < |nodes| && n != root ==> EdgeAboveSettles(nodes, links, p, n, bounds, order)
  }

  ghost predicate LastSettles(nodes: seq<Node>, links: seq<Link>, root: nat, p: nat, n: nat, order: nat)
    requires |links| == |nodes| && p < |nodes| && n < |nodes|
  {
    LastOk(nodes, n) || (nodes[n].maxOrder < order && (n == p || (p != root && n == links[p].parent)))
  }

  /** Every last child carries the maximum, except that `p` and its parent may wait for a larger order. */
  ghost predicate SettlingLasts(nodes: seq<Node>, links: seq<Link>, root: nat, p: nat, order: nat)
    requires |links| == |nodes| && p < |nodes|
  {
    forall n :: 0 <= n < |nodes| ==> LastSettles(nodes, links, root, p, n, order)
  }

  /** Labelled, except that `p` and what is above it do not know the new leaf yet. */
  ghost predicate Settling(nodes: seq<Node>, links: seq<Link>, root: nat, p: nat, bounds: Bounds, order: nat)
    requires |links| == |nodes| && p < |nodes|
  {
    && SettlingEdges(nodes, links, root, p, bounds, order)
    && SettlingLasts(nodes, links, root, p, order)
    && LeavesOk(nodes)
  }

  /** What the propagation step at `p` relies on when it raises the maximum of `p`. */
  ghost predicate Promotes(nodes: seq<Node>, p: nat, order: nat, updatedChild: Option<nat>)
    requires p < |nodes| && nodes[p].kind.Internal?
  {
    nodes[p].maxOrder < order ==>
      var cs := nodes[p].kind.children;
      var c := if updatedChild.Some? then updatedChild.value else if cs != [] then cs[|cs| - 1] else 0;
      c in cs && c < |nodes| && nodes[c].maxOrder == order
  }

  lemma RearrangingKeepsLinks(nodes: seq<Node>, links: seq<Link>, root: nat, p: nat, node: Node)
    requires Linked(nodes, links, root) && p < |nodes|
    requires nodes[p].kind.Internal? && node.kind.Internal?
    requires Rearranged(nodes[p].kind.children, node.kind.children)
    ensures Linked(nodes[p := node], links, root)
  {
    var after := nodes[p := node];
    assert OwnsChildren(nodes, links, root, p);
    forall n | 0 <= n < |after| && n != root
      ensures HasParent(after, links, n)
    {
      assert HasParent(nodes, links, n);
    }
    forall n | 0 <= n < |after| && after[n].kind.Internal?
      ensures OwnsChildren(after, links, root, n)
    {
      assert OwnsChildren(nodes, links, root, n);
      if n == p {
        var cs := node.kind.children;
        forall k | 0 <= k < |cs|
          ensures cs[k] < |nodes| && cs[k] != root && links[cs[k]].parent == p
        {
          assert cs[k] in nodes[p].kind.children;
        }
      }
    }
  }

  lemma RaisedRearranges(node: Node, bounds: Bounds, order: nat, updatedChild: Option<nat>)
    requires node.kind.Internal?
    ensures var r := Raised(node, bounds, order, updatedChild);
            r.kind.Internal? && Rearranged(node.kind.children, r.kind.children)
  {
    if updatedChild.Some? {
      var cs := node.kind.children;
      var at := IndexOf(cs, updatedChild.value);
      if at.Some? {
        SwapRearranges(cs, at.value, |cs| - 1);
      }
    }
  }

  lemma RaiseEdges(nodes: seq<Node>, links: seq<Link>, root: nat, p: nat, bounds: Bounds, order: nat, node: Node)
    requires |links| == |nodes| && p < |nodes| && nodes[p].kind.Internal? && node.kind.Internal?
    requires SettlingEdges(nodes, links, root, p, bounds, order)
    requires node.bounds == nodes[p].bounds.Union(bounds) && node.maxOrder == MaxOf(nodes[p].maxOrder, order)
    requires Rearranged(nodes[p].kind.children, node.kind.children)
    ensures var after := nodes[p := node];
            if p == root then EdgesOk(after, links, root)
            else SettlingEdges(after, links, root, links[p].parent, bounds, order)
  {
    var after := nodes[p := node];
    forall n | 0 <= n < |nodes| && n != root
      ensures HasParent(after, links, n)
      ensures n != p ==> EdgeAboveOk(after, links, n)
      ensures p != root ==> EdgeAboveSettles(after, links, links[p].parent, n, bounds, order)
    {
      assert EdgeAboveSettles(nodes, links, p, n, bounds, order);
    }
    assert p != root ==> SettlingEdges(after, links, root, links[p].parent, bounds, order);
  }

  /** After the step every last child below or at `p` carries the maximum. */
  lemma RaiseLasts(nodes: seq<Node>, links: seq<Link>, root: nat, p: nat, order: nat, node: Node)
    requires Linked(nodes, links, root) && p < |nodes| && nodes[p].kind.Internal? && node.kind.Internal?
    requires SettlingLasts(nodes, links, root, p, order)
    requires node.maxOrder == MaxOf(nodes[p].maxOrder, order)
    requires var cs := node.kind.children;
             cs != [] && cs[|cs| - 1] < |nodes| && cs[|cs| - 1] != p &&
             nodes[cs[|cs| - 1]].maxOrder == node.maxOrder
    ensures var after := nodes[p := node];
            if p == root then LastsOk(after)
            else links[p].parent < |nodes| && SettlingLasts(after, links, root, links[p].parent, order)
  {
    var after := nodes[p := node];
    assert p != root ==> HasParent(nodes, links, p);
    forall n | 0 <= n < |nodes|
      ensures p == root ==> LastOk(after, n)
      ensures p != root ==> LastSettles(after, links, root, links[p].parent, n, order)
    {
      assert LastSettles(nodes, links, root, p, n, order);
      if n != p && nodes[n].kind.Internal? && LastOk(nodes, n) {
        var cs := nodes[n].kind.children;
        assert OwnsChildren(nodes, links, root, n);
        assert links[cs[|cs| - 1]].parent == n;
        if n != links[p].parent || p == root {
          assert cs[|cs| - 1] != p;
        }
      }
    }
  }

  /** The last child after the step, wherever it comes from, carries the raised maximum. */
  lemma RaisedLast(nodes: seq<Node>, links: seq<Link>, root: nat, p: nat, bounds: Bounds, order: nat,
                   updatedChild: Option<nat>)
    requires Linked(nodes, links, root) && p < |nodes| && nodes[p].kind.Internal?
    requires SettlingLasts(nodes, links, root, p, order)
    requires Promotes(nodes, p, order, updatedChild)
    ensures var cs := Raised(nodes[p], bounds, order, updatedChild).kind.children;
            cs != [] && cs[|cs| - 1] < |nodes| && cs[|cs| - 1] != p &&
            nodes[cs[|cs| - 1]].maxOrder == MaxOf(nodes[p].maxOrder, order)
  {
    assert OwnsChildren(nodes, links, root, p);
    RaisedRearranges(nodes[p], bounds, order, updatedChild);
    var before := nodes[p].kind.children;
    var cs := Raised(nodes[p], bounds, order, updatedChild).kind.children;
    var last := cs[|cs| - 1];
    assert last in before;
    assert HasParent(nodes, links, last);
    if nodes[p].maxOrder < order {
    } else {
      assert LastSettles(nodes, links, root, p, p, order);
    }
  }

  lemma RaiseKeepsLinks(nodes: seq<Node>, links: seq<Link>, root: nat, p: nat, bounds: Bounds, order: nat,
                        updatedChild: Option<nat>)
    requires Linked(nodes, links, root) && p < |nodes| && nodes[p].kind.Internal?
    ensures Linked(nodes[p := Raised(nodes[p], bounds, order, updatedChild)], links, root)
  {
    RaisedRearranges(nodes[p], bounds, order, updatedChild);
    RearrangingKeepsLinks(nodes, links, root, p, Raised(nodes[p], bounds, order, updatedChild));
  }

  /** The propagation step at `p` settles `p` and leaves only what is above it. */
  lemma RaiseSettles(nodes: seq<Node>, links: seq<Link>, root: nat, p: nat, bounds: Bounds, order: nat,
                     updatedChild: Option<nat>)
    requires Linked(nodes, links, root) && p < |nodes| && nodes[p].kind.Internal?
    requires Settling(nodes, links, root, p, bounds, order)
    requires Promotes(nodes, p, order, updatedChild)
    ensures var after := nodes[p := Raised(nodes[p], bounds, order, updatedChild)];
            if p == root then Labelled(after, links, root)
            else
              && HasParent(after, links, p)
              && Settling(after, links, root, links[p].parent, bounds, order)
  {
    var node := Raised(nodes[p], bounds, order, updatedChild);
    var after := nodes[p := node];
    RaisedRearranges(nodes[p], bounds, order, updatedChild);
    RaisedLast(nodes, links, root, p, bounds, order, updatedChild);
    RaiseEdges(nodes, links, root, p, bounds, order, node);
    RaiseLasts(nodes, links, root, p, order, node);
    assert p != root ==> EdgeAboveSettles(after, links, links[p].parent, p, bounds, order);
    forall n | 0 <= n < |after|
      ensures LeafOk(after, n)
    {
      assert LeafOk(nodes, n);
    }
  }

  lemma RaisePromotes(nodes: seq<Node>, links: seq<Link>, root: nat, p: nat, bounds: Bounds, order: nat,
                      updatedChild: Option<nat>)
    requires |links| == |nodes| && p < |nodes| && nodes[p].kind.Internal? && p != root
    requires Linked(nodes, links, root) && SettlingEdges(nodes, links, root, p, bounds, order)
    ensures HasParent(nodes, links, p)
    ensures Promotes(nodes[p := Raised(nodes[p], bounds, order, updatedChild)], links[p].parent, order, Some(p))
  {
    assert EdgeAboveSettles(nodes, links, p, p, bounds, order);
  }

  function LeafNode(bounds: Bounds, order: nat): Node {
    Node(bounds, order, Leaf(order))
  }

  /** The internal node that takes the place of a leaf and holds it together with the new leaf. */
  function PairNode(nodes: seq<Node>, sibling: nat, added: nat, bounds: Bounds, order: nat): Node
    requires sibling < |nodes|
  {
    var existing := nodes[sibling];
    Node(existing.bounds.Union(bounds), MaxOf(existing.maxOrder, order),
         Internal(PairChildren(sibling, existing.maxOrder, added, order)))
  }

  lemma WithChildRearranges(node: Node, added: nat, bounds: Bounds, order: nat)
    requires node.kind.Internal? && node.kind.children != []
    ensures Rearranged(node.kind.children + [added], WithChild(node, added, bounds, order).kind.children)
  {
    var cs := node.kind.children + [added];
    SwapRearranges(cs, |cs| - 2, |cs| - 1);
  }

  lemma WithSplitRearranges(node: Node, pos: nat, added: nat, addedMax: nat)
    requires node.kind.Internal? && pos < |node.kind.children|
    ensures Rearranged(node.kind.children[pos := added], WithSplit(node, pos, added, addedMax).kind.children)
  {
    var cs := node.kind.children[pos := added];
    SwapRearranges(cs, pos, |cs| - 1);
  }

  // ----- a node with room takes the leaf -----

  ghost function AttachedNodes(base: seq<Node>, cur: nat, bounds: Bounds, order: nat): (after: seq<Node>)
    requires cur < |base| && base[cur].kind.Internal? && base[cur].kind.children != []
    ensures |after| == |base| + 1
  {
    (base + [LeafNode(bounds, order)])[cur := WithChild(base[cur], |base|, bounds, order)]
  }

  ghost function AttachedLinks(links: seq<Link>, cur: nat, slot: nat): (after: seq<Link>)
    requires cur < |links|
    ensures |after| == |links| + 1
  {
    links + [Link(cur, links[cur].depth + 1, slot)]
  }

  lemma AttachChildren(base: seq<Node>, links: seq<Link>, root: nat, cur: nat, bounds: Bounds, order: nat, slot: nat)
    requires Linked(base, links, root)
    requires cur < |base| && base[cur].kind.Internal? && 0 < |base[cur].kind.children| < MAX_CHILDREN
    ensures OwnsChildren(AttachedNodes(base, cur, bounds, order), AttachedLinks(links, cur, slot), root, cur)
    ensures forall x :: x in base[cur].kind.children + [|base|] ==>
              x in AttachedNodes(base, cur, bounds, order)[cur].kind.children
  {
    var after := AttachedNodes(base, cur, bounds, order);
    var newLinks := AttachedLinks(links, cur, slot);
    assert OwnsChildren(base, links, root, cur);
    WithChildRearranges(base[cur], |base|, bounds, order);
    AdditionIsDistinct(base[cur].kind.children, |base|);
    forall x | x in after[cur].kind.children
      ensures x < |after| && x != root && newLinks[x].parent == cur
    {
      assert x in base[cur].kind.children + [|base|];
    }
  }

  lemma AttachKeepsLinks(base: seq<Node>, links: seq<Link>, root: nat, cur: nat, bounds: Bounds, order: nat, slot: nat)
    requires Linked(base, links, root)
    requires cur < |base| && base[cur].kind.Internal? && 0 < |base[cur].kind.children| < MAX_CHILDREN
    ensures Linked(AttachedNodes(base, cur, bounds, order), AttachedLinks(links, cur, slot), root)
  {
    var after := AttachedNodes(base, cur, bounds, order);
    var newLinks := AttachedLinks(links, cur, slot);
    AttachChildren(base, links, root, cur, bounds, order, slot);
    forall n | 0 <= n < |after| && n != root
      ensures HasParent(after, newLinks, n)
    {
      assert n < |base| ==> HasParent(base, links, n);
      assert n == |base| ==> n in base[cur].kind.children + [|base|];
    }
    forall n | 0 <= n < |after|
      ensures OwnsChildren(after, newLinks, root, n)
    {
      assert n < |base| ==> OwnsChildren(base, links, root, n);
    }
  }

  lemma AttachLeaves(base: seq<Node>, cur: nat, bounds: Bounds, order: nat)
    requires LeavesOk(base) && cur < |base| && base[cur].kind.Internal? && base[cur].kind.children != []
    ensures LeavesOk(AttachedNodes(base, cur, bounds, order))
  {
    var after := AttachedNodes(base, cur, bounds, order);
    forall n | 0 <= n < |after|
      ensures LeafOk(after, n)
    {
      assert n < |base| ==> LeafOk(base, n);
    }
  }

  lemma AttachSettles(base: seq<Node>, links: seq<Link>, root: nat, cur: nat, bounds: Bounds, order: nat, slot: nat)
    requires Linked(base, links, root) && Labelled(base, links, root)
    requires cur < |base| && base[cur].kind.Internal? && 0 < |base[cur].kind.children| < MAX_CHILDREN
    requires Linked(AttachedNodes(base, cur, bounds, order), AttachedLinks(links, cur, slot), root)
    ensures var after := AttachedNodes(base, cur, bounds, order);
            && Settling(after, AttachedLinks(links, cur, slot), root, cur, bounds, order)
            && Promotes(after, cur, order, None)
  {
    var after := AttachedNodes(base, cur, bounds, order);
    var newLinks := AttachedLinks(links, cur, slot);
    forall n | 0 <= n < |after| && n != root
      ensures EdgeAboveSettles(after, newLinks, cur, n, bounds, order)
    {
      assert HasParent(after, newLinks, n);
      assert n < |base| ==> EdgeAboveOk(base, links, n);
    }
    forall n | 0 <= n < |after|
      ensures LastSettles(after, newLinks, root, cur, n, order)
    {
      if n < |base| && base[n].kind.Internal? {
        assert LastOk(base, n) && OwnsChildren(base, links, root, n);
        assert HasParent(base, links, base[n].kind.children[|base[n].kind.children| - 1]);
        AttachLast(base, links, root, cur, bounds, order, slot, n);
      }
    }
    AttachLeaves(base, cur, bounds, order);
  }

  lemma AttachLast(base: seq<Node>, links: seq<Link>, root: nat, cur: nat, bounds: Bounds, order: nat, slot: nat,
                   n: nat)
    requires |links| == |base| && root < |base|
    requires cur < |base| && base[cur].kind.Internal? && 0 < |base[cur].kind.children| < MAX_CHILDREN
    requires n < |base| && base[n].kind.Internal? && LastOk(base, n) && OwnsChildren(base, links, root, n)
    requires HasParent(base, links, base[n].kind.children[|base[n].kind.children| - 1])
    ensures LastSettles(AttachedNodes(base, cur, bounds, order), AttachedLinks(links, cur, slot), root, cur, n, order)
  {
    var last := base[n].kind.children[|base[n].kind.children| - 1];
    assert links[last].parent == n && last != n;
    if n == cur {
      AttachLastHere(base, cur, bounds, order);
    } else {
      AttachLastElsewhere(base, cur, bounds, order, n, last);
      assert AttachedLinks(links, cur, slot)[last] == links[last];
    }
  }

  lemma AttachLastHere(base: seq<Node>, cur: nat, bounds: Bounds, order: nat)
    requires cur < |base| && base[cur].kind.Internal? && base[cur].kind.children != [] && LastOk(base, cur)
    requires base[cur].kind.children[|base[cur].kind.children| - 1] != cur
    ensures LastOk(AttachedNodes(base, cur, bounds, order), cur)
  {
    var before := base[cur].kind.children;
    var last := before[|before| - 1];
    var after := AttachedNodes(base, cur, bounds, order);
    var cs := after[cur].kind.children;
    assert after[cur] == WithChild(base[cur], |base|, bounds, order);
    if order <= base[cur].maxOrder {
      assert cs[|cs| - 1] == last && after[last] == base[last];
    } else {
      assert cs[|cs| - 1] == |base| && after[|base|] == LeafNode(bounds, order);
    }
  }

  lemma AttachLastElsewhere(base: seq<Node>, cur: nat, bounds: Bounds, order: nat, n: nat, last: nat)
    requires cur < |base| && base[cur].kind.Internal? && base[cur].kind.children != []
    requires n < |base| && n != cur && base[n].kind.Internal? && LastOk(base, n)
    requires last == base[n].kind.children[|base[n].kind.children| - 1]
    ensures var after := AttachedNodes(base, cur, bounds, order);
            after[n] == base[n] && (LastOk(after, n) || (last == cur && base[n].maxOrder < order))
  {
    var after := AttachedNodes(base, cur, bounds, order);
    assert after[n] == base[n];
    assert after[last].maxOrder == if last == cur then MaxOf(base[cur].maxOrder, order) else base[last].maxOrder;
  }

  // ----- a full node trades a leaf child for a pair -----

  ghost predicate CanSplit(base: seq<Node>, cur: nat, pos: nat) {
    && cur < |base| && base[cur].kind.Internal?
    && pos < |base[cur].kind.children|
    && base[cur].kind.children[pos] < |base|
    && base[base[cur].kind.children[pos]].kind.Leaf?
  }

  ghost function SplitNodes(base: seq<Node>, cur: nat, pos: nat, bounds: Bounds, order: nat): (after: seq<Node>)
    requires CanSplit(base, cur, pos)
    ensures |after| == |base| + 2
  {
    var pair := PairNode(base, base[cur].kind.children[pos], |base|, bounds, order);
    (base + [LeafNode(bounds, order), pair])[cur := WithSplit(base[cur], pos, |base| + 1, pair.maxOrder)]
  }

  ghost function SplitLinks(links: seq<Link>, cur: nat, sibling: nat, slot: nat): (after: seq<Link>)
    requires cur < |links| && sibling < |links|
    ensures |after| == |links| + 2
  {
    var d := links[cur].depth;
    var pair := |links| + 1;
    links[sibling := Link(pair, d + 2, links[sibling].slot)] + [Link(pair, d + 2, slot), Link(cur, d + 1, 0)]
  }

  lemma SplitParents(base: seq<Node>, links: seq<Link>, root: nat, cur: nat, pos: nat, bounds: Bounds, order: nat,
                     slot: nat, n: nat)
    requires |links| == |base| && root < |base| && CanSplit(base, cur, pos)
    requires n < |base| + 2 && n != root
    requires n < |base| ==> HasParent(base, links, n)
    ensures HasParent(SplitNodes(base, cur, pos, bounds, order),
                      SplitLinks(links, cur, base[cur].kind.children[pos], slot), n)
  {
    var sibling := base[cur].kind.children[pos];
    var after := SplitNodes(base, cur, pos, bounds, order);
    var pair := |base| + 1;
    WithSplitRearranges(base[cur], pos, pair, after[pair].maxOrder);
    var before := base[cur].kind.children[pos := pair];
    if n == sibling || n == |base| {
      var two := after[pair].kind.children;
      assert two[0] == n || two[1] == n;
    } else if n == pair {
      assert before[pos] == pair;
    } else if links[n].parent == cur {
      var k :| 0 <= k < |base[cur].kind.children| && base[cur].kind.children[k] == n;
      assert before[k] == n;
    }
  }

  /** What is left in a child list after one entry was replaced and the list rearranged. */
  lemma AfterReplacement(before: seq<nat>, pos: nat, x: nat, after: seq<nat>)
    requires Distinct(before) && pos < |before| && x !in before
    requires Rearranged(before[pos := x], after)
    ensures Distinct(after)
    ensures forall c :: c in after ==> c == x || (c in before && c != before[pos])
  {
    ReplacementIsDistinct(before, pos, x);
    forall c | c in after
      ensures c == x || (c in before && c != before[pos])
    {
      assert c in before[pos := x];
      var j :| 0 <= j < |before| && before[pos := x][j] == c;
      if j != pos {
        assert before[j] == c;
      }
    }
  }

  lemma WithSplitChildren(node: Node, pos: nat, added: nat, addedMax: nat)
    requires node.kind.Internal? && pos < |node.kind.children|
    requires Distinct(node.kind.children) && added !in node.kind.children
    ensures var cs := WithSplit(node, pos, added, addedMax).kind.children;
            && |cs| == |node.kind.children| && Distinct(cs)
            && forall c :: c in cs ==> c == added || (c in node.kind.children && c != node.kind.children[pos])
  {
    WithSplitRearranges(node, pos, added, addedMax);
    AfterReplacement(node.kind.children, pos, added, WithSplit(node, pos, added, addedMax).kind.children);
  }

  lemma SplitChildren(base: seq<Node>, links: seq<Link>, root: nat, cur: nat, pos: nat, bounds: Bounds, order: nat,
                      slot: nat)
    requires |links| == |base| && root < |base| && CanSplit(base, cur, pos) && OwnsChildren(base, links, root, cur)
    ensures OwnsChildren(SplitNodes(base, cur, pos, bounds, order),
                         SplitLinks(links, cur, base[cur].kind.children[pos], slot), root, cur)
  {
    var sibling := base[cur].kind.children[pos];
    var after := SplitNodes(base, cur, pos, bounds, order);
    var newLinks := SplitLinks(links, cur, sibling, slot);
    var pair := PairNode(base, sibling, |base|, bounds, order);
    var cs := after[cur].kind.children;
    assert after[cur] == WithSplit(base[cur], pos, |base| + 1, pair.maxOrder);
    WithSplitChildren(base[cur], pos, |base| + 1, pair.maxOrder);
    ReplacedAreOwned(base, links, root, cur, pos, cs, newLinks);
  }

  ghost predicate ListedBy(links: seq<Link>, root: nat, cur: nat, c: nat) {
    c < |links| && c != root && links[c].parent == cur
  }

  lemma ReplacedAreOwned(base: seq<Node>, links: seq<Link>, root: nat, cur: nat, pos: nat, cs: seq<nat>,
                         newLinks: seq<Link>)
    requires |links| == |base| && root < |base| && CanSplit(base, cur, pos) && OwnsChildren(base, links, root, cur)
    requires |newLinks| == |base| + 2 && newLinks[|base| + 1].parent == cur
    requires forall c | 0 <= c < |base| && c != base[cur].kind.children[pos] :: newLinks[c] == links[c]
    requires forall c | c in cs :: c == |base| + 1
                                  || (c in base[cur].kind.children && c != base[cur].kind.children[pos])
    ensures forall k | 0 <= k < |cs| :: ListedBy(newLinks, root, cur, cs[k])
  {
    forall k | 0 <= k < |cs| ensures ListedBy(newLinks, root, cur, cs[k]) {
      var c := cs[k];
      assert c in cs;
      if c != |base| + 1 {
        ChildOf(base, links, root, cur, c);
      }
    }
  }

  lemma ChildOf(base: seq<Node>, links: seq<Link>, root: nat, cur: nat, c: nat)
    requires |links| == |base| && cur < |base| && OwnsChildren(base, links, root, cur)
    requires base[cur].kind.Internal? && c in base[cur].kind.children
    ensures ListedBy(links, root, cur, c)
  {
    var k :| 0 <= k < |base[cur].kind.children| && base[cur].kind.children[k] == c;
  }

  lemma SplitOthers(base: seq<Node>, links: seq<Link>, root: nat, cur: nat, pos: nat, bounds: Bounds, order: nat,
                    slot: nat, n: nat)
    requires |links| == |base| && root < |base| && CanSplit(base, cur, pos) && OwnsChildren(base, links, root, cur)
    requires n < |base| + 2 && n != cur && base[cur].kind.children[pos] != |base|
    requires n < |base| ==> OwnsChildren(base, links, root, n)
    ensures OwnsChildren(SplitNodes(base, cur, pos, bounds, order),
                         SplitLinks(links, cur, base[cur].kind.children[pos], slot), root, n)
  {
  }

  lemma SplitKeepsLinks(base: seq<Node>, links: seq<Link>, root: nat, cur: nat, pos: nat, bounds: Bounds, order: nat,
                        slot: nat)
    requires Linked(base, links, root) && CanSplit(base, cur, pos)
    ensures Linked(SplitNodes(base, cur, pos, bounds, order),
                   SplitLinks(links, cur, base[cur].kind.children[pos], slot), root)
  {
    var sibling := base[cur].kind.children[pos];
    var after := SplitNodes(base, cur, pos, bounds, order);
    var newLinks := SplitLinks(links, cur, sibling, slot);
    assert OwnsChildren(base, links, root, cur);
    forall n | 0 <= n < |after| && n != root
      ensures HasParent(after, newLinks, n)
    {
      assert n < |base| ==> HasParent(base, links, n);
      SplitParents(base, links, root, cur, pos, bounds, order, slot, n);
    }
    forall n | 0 <= n < |after|
      ensures OwnsChildren(after, newLinks, root, n)
    {
      if n == cur {
        SplitChildren(base, links, root, cur, pos, bounds, order, slot);
      } else {
        assert n < |base| ==> OwnsChildren(base, links, root, n);
        SplitOthers(base, links, root, cur, pos, bounds, order, slot, n);
      }
    }
  }

  lemma SplitLast(base: seq<Node>, links: seq<Link>, root: nat, cur: nat, pos: nat, bounds: Bounds, order: nat, n: nat)
    requires |links| == |base| && root < |base| && CanSplit(base, cur, pos)
    requires n < |base| && base[n].kind.Internal? && LastOk(base, n) && OwnsChildren(base, links, root, n)
    requires HasParent(base, links, base[n].kind.children[|base[n].kind.children| - 1])
    requires EdgeOk(base, cur, base[cur].kind.children[pos])
    ensures var after := SplitNodes(base, cur, pos, bounds, order);
            LastOk(after, n) || (n == cur && base[cur].maxOrder < order)
  {
    if n == cur {
      SplitLastHere(base, cur, pos, bounds, order);
    } else {
      assert SplitNodes(base, cur, pos, bounds, order)[n] == base[n];
    }
  }

  lemma SplitLastHere(base: seq<Node>, cur: nat, pos: nat, bounds: Bounds, order: nat)
    requires CanSplit(base, cur, pos) && LastOk(base, cur) && EdgeOk(base, cur, base[cur].kind.children[pos])
    requires base[cur].kind.children[|base[cur].kind.children| - 1] != cur
    ensures LastOk(SplitNodes(base, cur, pos, bounds, order), cur) || base[cur].maxOrder < order
  {
    var cs := base[cur].kind.children;
    var pair := PairNode(base, cs[pos], |base|, bounds, order);
    var after := SplitNodes(base, cur, pos, bounds, order);
    assert after[cur] == WithSplit(base[cur], pos, |base| + 1, pair.maxOrder) && after[|base| + 1] == pair;
    if order <= base[cur].maxOrder {
      assert after[cur].kind.children == cs[pos := |base| + 1];
      if pos < |cs| - 1 {
        assert after[cs[|cs| - 1]] == base[cs[|cs| - 1]];
      }
    }
  }

  lemma SplitEdges(base: seq<Node>, links: seq<Link>, root: nat, cur: nat, pos: nat, bounds: Bounds, order: nat,
                   slot: nat, n: nat)
    requires |links| == |base| && CanSplit(base, cur, pos)
    requires n < |base| + 2 && n != root
    requires EdgeAboveOk(base, links, base[cur].kind.children[pos]) && links[base[cur].kind.children[pos]].parent == cur
    requires n < |base| ==> EdgeAboveOk(base, links, n)
    requires HasParent(SplitNodes(base, cur, pos, bounds, order),
                       SplitLinks(links, cur, base[cur].kind.children[pos], slot), n)
    ensures EdgeAboveSettles(SplitNodes(base, cur, pos, bounds, order),
                             SplitLinks(links, cur, base[cur].kind.children[pos], slot), cur, n, bounds, order)
  {
  }

  lemma SplitLeaves(base: seq<Node>, cur: nat, pos: nat, bounds: Bounds, order: nat)
    requires LeavesOk(base) && CanSplit(base, cur, pos)
    ensures LeavesOk(SplitNodes(base, cur, pos, bounds, order))
  {
    var after := SplitNodes(base, cur, pos, bounds, order);
    forall n | 0 <= n < |after|
      ensures LeafOk(after, n)
    {
      assert n < |base| ==> LeafOk(base, n);
    }
  }

  lemma SplitSettlesEdges(base: seq<Node>, links: seq<Link>, root: nat, cur: nat, pos: nat, bounds: Bounds, order: nat,
                          slot: nat)
    requires Linked(base, links, root) && EdgesOk(base, links, root) && CanSplit(base, cur, pos)
    ensures SettlingEdges(SplitNodes(base, cur, pos, bounds, order),
                          SplitLinks(links, cur, base[cur].kind.children[pos], slot), root, cur, bounds, order)
  {
    var sibling := base[cur].kind.children[pos];
    assert OwnsChildren(base, links, root, cur) && EdgeAboveOk(base, links, sibling);
    forall n | 0 <= n < |base| + 2 && n != root
      ensures EdgeAboveSettles(SplitNodes(base, cur, pos, bounds, order), SplitLinks(links, cur, sibling, slot),
                               cur, n, bounds, order)
    {
      assert n < |base| ==> EdgeAboveOk(base, links, n);
      SplitParents(base, links, root, cur, pos, bounds, order, slot, n);
      SplitEdges(base, links, root, cur, pos, bounds, order, slot, n);
    }
  }

  lemma SplitSettlesLasts(base: seq<Node>, links: seq<Link>, root: nat, cur: nat, pos: nat, bounds: Bounds, order: nat,
                          slot: nat)
    requires Linked(base, links, root) && EdgesOk(base, links, root) && LastsOk(base) && CanSplit(base, cur, pos)
    ensures SettlingLasts(SplitNodes(base, cur, pos, bounds, order),
                          SplitLinks(links, cur, base[cur].kind.children[pos], slot), root, cur, order)
  {
    var sibling := base[cur].kind.children[pos];
    assert OwnsChildren(base, links, root, cur) && EdgeAboveOk(base, links, sibling);
    forall n | 0 <= n < |base| + 2
      ensures LastSettles(SplitNodes(base, cur, pos, bounds, order), SplitLinks(links, cur, sibling, slot),
                          root, cur, n, order)
    {
      if n < |base| && base[n].kind.Internal? {
        assert LastOk(base, n) && OwnsChildren(base, links, root, n);
        assert HasParent(base, links, base[n].kind.children[|base[n].kind.children| - 1]);
        SplitLast(base, links, root, cur, pos, bounds, order, n);
      }
    }
  }

  lemma SplitSettles(base: seq<Node>, links: seq<Link>, root: nat, cur: nat, pos: nat, bounds: Bounds, order: nat,
                     slot: nat)
    requires Linked(base, links, root) && Labelled(base, links, root) && CanSplit(base, cur, pos)
    ensures var after := SplitNodes(base, cur, pos, bounds, order);
            && Settling(after, SplitLinks(links, cur, base[cur].kind.children[pos], slot), root, cur, bounds, order)
            && Promotes(after, cur, order, None)
  {
    SplitSettlesEdges(base, links, root, cur, pos, bounds, order, slot);
    SplitSettlesLasts(base, links, root, cur, pos, bounds, order, slot);
    SplitLeaves(base, cur, pos, bounds, order);
    var sibling := base[cur].kind.children[pos];
    assert OwnsChildren(base, links, root, cur) && EdgeAboveOk(base, links, sibling);
  }

  // ----- a root that is a leaf is paired -----

  ghost function RootPairNodes(base: seq<Node>, root: nat, bounds: Bounds, order: nat): seq<Node>
    requires root < |base|
  {
    base + [LeafNode(bounds, order), PairNode(base, root, |base|, bounds, order)]
  }

  ghost function RootPairLinks(links: seq<Link>, root: nat, slot: nat): seq<Link>
    requires root < |links|
  {
    var pair := |links| + 1;
    links[root := Link(pair, 1, links[root].slot)] + [Link(pair, 1, slot), Link(pair, 0, 0)]
  }

  lemma LeafRootIsAlone(nodes: seq<Node>, links: seq<Link>, root: nat)
    requires Linked(nodes, links, root) && nodes[root].kind.Leaf?
    ensures |nodes| == 1
  {
    if |nodes| > 1 {
      var n := if root == 0 then 1 else 0;
      RootIsAboveAll(nodes, links, root, n);
      NothingUnderLeaf(nodes, links, root, root, n);
    }
  }

  lemma RootPairIsLabelled(base: seq<Node>, links: seq<Link>, root: nat, bounds: Bounds, order: nat, slot: nat)
    requires Linked(base, links, root) && Labelled(base, links, root) && base[root].kind.Leaf?
    ensures var after := RootPairNodes(base, root, bounds, order);
            var newLinks := RootPairLinks(links, root, slot);
            Linked(after, newLinks, |base| + 1) && Labelled(after, newLinks, |base| + 1)
  {
    var after := RootPairNodes(base, root, bounds, order);
    var newLinks := RootPairLinks(links, root, slot);
    var pair := |base| + 1;
    assert LeafOk(base, root);
    LeafRootIsAlone(base, links, root);
    var two := after[pair].kind.children;
    forall n | 0 <= n < |after|
      ensures n != pair ==> HasParent(after, newLinks, n) && EdgeAboveOk(after, newLinks, n)
      ensures OwnsChildren(after, newLinks, pair, n)
      ensures LastOk(after, n) && LeafOk(after, n)
    {
      if n != pair {
        assert two[0] == n || two[1] == n;
      }
    }
  }

  // ----- descent and records -----

  function Cost(nodes: seq<Node>, bounds: Bounds, child: nat): real
    requires child < |nodes|
  {
    bounds.Union(nodes[child].bounds).HalfPerimeter()
  }

  /** The cost is how wide and how high the smallest rectangle around both is. */
  lemma CostIsExtent(nodes: seq<Node>, bounds: Bounds, child: nat)
    requires child < |nodes|
    ensures var o, q := bounds, nodes[child].bounds;
            var left := if o.origin.x <= q.origin.x then o.origin.x else q.origin.x;
            var top := if o.origin.y <= q.origin.y then o.origin.y else q.origin.y;
            var right := if o.origin.x + o.size.width >= q.origin.x + q.size.width then o.origin.x + o.size.width
                         else q.origin.x + q.size.width;
            var bottom := if o.origin.y + o.size.height >= q.origin.y + q.size.height then o.origin.y + o.size.height
                          else q.origin.y + q.size.height;
            Cost(nodes, bounds, child) == (right - left) + (bottom - top)
  {
  }

  /** Internal nodes of a linked tree have two to twelve children. */
  lemma TwoToTwelveChildren(nodes: seq<Node>, links: seq<Link>, root: nat, n: nat)
    requires Linked(nodes, links, root) && n < |nodes| && nodes[n].kind.Internal?
    ensures 2 <= |nodes[n].kind.children| <= 12
  {
    assert OwnsChildren(nodes, links, root, n);
  }

  /** The first child whose box grows to the smallest half perimeter. */
  ghost predicate IsCheapest(nodes: seq<Node>, cs: seq<nat>, bounds: Bounds, pos: nat) {
    && (forall k :: 0 <= k < |cs| ==> cs[k] < |nodes|)
    && pos < |cs|
    && (forall k :: 0 <= k < |cs| ==> Cost(nodes, bounds, cs[pos]) <= Cost(nodes, bounds, cs[k]))
    && (forall k :: 0 <= k < pos ==> Cost(nodes, bounds, cs[pos]) < Cost(nodes, bounds, cs[k]))
  }

  /** Internal nodes from the root down, each the parent of the next. */
  ghost predicate IsPath(nodes: seq<Node>, links: seq<Link>, root: nat, path: seq<nat>)
    requires |links| == |nodes|
  {
    && path != [] && path[0] == root
    && (forall k :: 0 <= k < |path| ==> path[k] < |nodes| && nodes[path[k]].kind.Internal?)
    && (forall k {:trigger links[path[k]]} :: 0 < k < |path| ==>
          path[k] != root && links[path[k]].parent == path[k - 1])
  }

  /** `c` is the cheapest child of `p`. */
  ghost predicate IsCheapestChild(nodes: seq<Node>, p: nat, c: nat, bounds: Bounds) {
    && p < |nodes| && nodes[p].kind.Internal?
    && exists pos: nat :: IsCheapest(nodes, nodes[p].kind.children, bounds, pos) && nodes[p].kind.children[pos] == c
  }

  /** Each node of the path is the cheapest child of the one before. */
  ghost predicate FollowsCheapest(nodes: seq<Node>, path: seq<nat>, bounds: Bounds) {
    forall k :: 0 <= k < |path| - 1 ==> IsCheapestChild(nodes, path[k], path[k + 1], bounds)
  }

  /** Leaves are never rewritten and never appear where there was none. */
  ghost predicate LeavesKept(before: seq<Node>, after: seq<Node>) {
    && |before| <= |after|
    && forall n :: 0 <= n < |before| && (before[n].kind.Leaf? || after[n].kind.Leaf?) ==> after[n] == before[n]
  }

  /** One new leaf was written behind the old nodes, and otherwise only internal nodes changed. */
  ghost predicate Grown(base: seq<Node>, links: seq<Link>, after: seq<Node>, newLinks: seq<Link>,
                        bounds: Bounds, order: nat, slot: nat)
  {
    && |links| == |base| < |after| == |newLinks|
    && LeavesKept(base, after)
    && after[|base|] == LeafNode(bounds, order)
    && (forall n :: |base| < n < |after| ==> after[n].kind.Internal?)
    && (forall n :: 0 <= n < |base| ==> newLinks[n].slot == links[n].slot)
    && newLinks[|base|].slot == slot
  }

  lemma GrownRewritten(base: seq<Node>, links: seq<Link>, mid: seq<Node>, after: seq<Node>, newLinks: seq<Link>,
                       bounds: Bounds, order: nat, slot: nat)
    requires Grown(base, links, mid, newLinks, bounds, order, slot)
    requires |mid| == |after| && LeavesKept(mid, after)
    ensures Grown(base, links, after, newLinks, bounds, order, slot)
  {
  }

  lemma RecordsGrow(base: seq<Node>, links: seq<Link>, leafOf: seq<nat>, log: seq<Bounds>, orders: seq<nat>,
                    after: seq<Node>, newLinks: seq<Link>, bounds: Bounds, order: nat)
    requires |links| == |base| && Records(base, links, leafOf, log, orders)
    requires Grown(base, links, after, newLinks, bounds, order, |log|)
    ensures Records(after, newLinks, leafOf + [|base|], log + [bounds], orders + [order])
  {
  }

  lemma PathSurvives(base: seq<Node>, links: seq<Link>, root: nat, path: seq<nat>, after: seq<Node>,
                     newLinks: seq<Link>)
    requires |links| == |base| <= |after| == |newLinks| && IsPath(base, links, root, path)
    requires forall n :: 0 <= n < |base| && base[n].kind.Internal? ==>
               after[n].kind.Internal? && newLinks[n].parent == links[n].parent
    ensures IsPath(after, newLinks, root, path)
  {
  }

  /** What holds once the new leaf hangs below `cur`, the end of the path, and nothing above knows it yet. */
  ghost predicate Hung(base: seq<Node>, links: seq<Link>, after: seq<Node>, newLinks: seq<Link>, root: nat,
                       path: seq<nat>, bounds: Bounds, order: nat, slot: nat)
  {
    && Grown(base, links, after, newLinks, bounds, order, slot)
    && Linked(after, newLinks, root)
    && IsPath(after, newLinks, root, path)
    && Settling(after, newLinks, root, path[|path| - 1], bounds, order)
    && Promotes(after, path[|path| - 1], order, None)
  }

  lemma AttachHangs(base: seq<Node>, links: seq<Link>, root: nat, path: seq<nat>, bounds: Bounds, order: nat, slot: nat)
    requires |links| == |base| && Linked(base, links, root) && Labelled(base, links, root)
    requires IsPath(base, links, root, path)
    requires 0 < |base[path[|path| - 1]].kind.children| < MAX_CHILDREN
    ensures var cur := path[|path| - 1];
            Hung(base, links, AttachedNodes(base, cur, bounds, order), AttachedLinks(links, cur, slot), root, path,
                 bounds, order, slot)
  {
    var cur := path[|path| - 1];
    AttachKeepsLinks(base, links, root, cur, bounds, order, slot);
    AttachSettles(base, links, root, cur, bounds, order, slot);
    PathSurvives(base, links, root, path, AttachedNodes(base, cur, bounds, order), AttachedLinks(links, cur, slot));
  }

  lemma SplitHangs(base: seq<Node>, links: seq<Link>, root: nat, path: seq<nat>, pos: nat, bounds: Bounds, order: nat,
                   slot: nat)
    requires |links| == |base| && Linked(base, links, root) && Labelled(base, links, root)
    requires IsPath(base, links, root, path) && CanSplit(base, path[|path| - 1], pos)
    ensures var cur := path[|path| - 1];
            Hung(base, links, SplitNodes(base, cur, pos, bounds, order),
                 SplitLinks(links, cur, base[cur].kind.children[pos], slot), root, path, bounds, order, slot)
  {
    var cur := path[|path| - 1];
    SplitKeepsLinks(base, links, root, cur, pos, bounds, order, slot);
    SplitSettles(base, links, root, cur, pos, bounds, order, slot);
    PathSurvives(base, links, root, path, SplitNodes(base, cur, pos, bounds, order),
                 SplitLinks(links, cur, base[cur].kind.children[pos], slot));
  }

  /** Only a strictly larger order moves the leaf that carries the global maximum. */
  function NextMaxLeaf(maxLeaf: Option<nat>, nodes: seq<Node>, newLeaf: nat, ordering: nat): Option<nat>
    requires maxLeaf.Some? ==> maxLeaf.value < |nodes|
  {
    match maxLeaf
    case None => Some(newLeaf)
    case Some(previous) => if nodes[previous].maxOrder < ordering then Some(newLeaf) else maxLeaf
  }

  lemma InsertedIsConsistent(base: seq<Node>, links: seq<Link>, root: Option<nat>, maxLeaf: Option<nat>,
                             leafOf: seq<nat>, log: seq<Bounds>, orders: seq<nat>,
                             after: seq<Node>, newLinks: seq<Link>, newRoot: nat, bounds: Bounds, order: nat)
    requires Consistent(base, links, root, maxLeaf, leafOf, log, orders)
    requires Grown(base, links, after, newLinks, bounds, order, |log|)
    requires Linked(after, newLinks, newRoot) && Labelled(after, newLinks, newRoot)
    ensures maxLeaf.Some? ==> maxLeaf.value < |after|
    ensures Consistent(after, newLinks, Some(newRoot), NextMaxLeaf(maxLeaf, after, |base|, order),
                       leafOf + [|base|], log + [bounds], orders + [order])
  {
    RecordsGrow(base, links, leafOf, log, orders, after, newLinks, bounds, order);
  }

  class BoundsTree {
    var nodes: seq<Node>
    var root: Option<nat>
    var maxLeaf: Option<nat>
    var insertPath: seq<nat>
    var searchStack: seq<nat>

    ghost var links: seq<Link>
    ghost var leafOf: seq<nat>
    ghost var orders: seq<nat>  // the order given to each of them
    ghost var log: seq<Bounds>  // everything inserted since the last clear, in order

    ghost predicate Valid()
      reads this
    {
      Consistent(nodes, links, root, maxLeaf, leafOf, log, orders) && orders == Orders(log)
    }

    constructor ()
      ensures Valid() && log == []
    {
      nodes, root, maxLeaf, insertPath, searchStack := [], None, None, [], [];
      links, leafOf, log, orders := [], [], [], [];
    }

    method Clear()
      modifies this
      ensures Valid() && log == []
    {
      nodes, root, maxLeaf, insertPath, searchStack := [], None, None, [], [];
      links, leafOf, log, orders := [], [], [], [];
    }

    /** Pushes the children whose maximum exceeds `maxFound`, in order. */
    method PushImproving(children: seq<nat>, maxFound: nat)
      requires forall k :: 0 <= k < |children| ==> children[k] < |nodes|
      modifies this`searchStack
      ensures searchStack == old(searchStack) + Improving(nodes, children, maxFound)
    {
      for i := 0 to |children|
        invariant searchStack == old(searchStack) + Improving(nodes, children[..i], maxFound)
      {
        assert children[..i + 1][..i] == children[..i];
        if nodes[children[i]].maxOrder > maxFound {
          searchStack := searchStack + [children[i]];
        }
      }
      assert children[..|children|] == children;
    }

    /** One turn of the search loop: pops a node and prunes it, counts it or replaces it by its children. */
    method VisitTop(query: Bounds, maxFound: nat, ghost rootIdx: nat, ghost expanded: set<nat>)
      returns (newMax: nat, ghost newExpanded: set<nat>)
      requires Linked(nodes, links, rootIdx)
      requires Searching(nodes, links, rootIdx, leafOf, log, orders, searchStack, query, maxFound, expanded)
      requires searchStack != []
      modifies this`searchStack
      ensures Searching(nodes, links, rootIdx, leafOf, log, orders, searchStack, query, newMax, newExpanded)
      ensures if newExpanded == expanded then |searchStack| < |old(searchStack)| else expanded < newExpanded
    {
      var nodeIdx := searchStack[|searchStack| - 1];
      ghost var rest := searchStack[..|searchStack| - 1];
      assert searchStack == rest + [nodeIdx];
      searchStack := searchStack[..|searchStack| - 1];
      newMax, newExpanded := maxFound, expanded;
      var node := nodes[nodeIdx];
      if node.maxOrder <= maxFound || !query.Intersects(node.bounds) {
        VisitPruned(nodes, links, rootIdx, leafOf, log, orders, rest, nodeIdx, query, maxFound, expanded);
        return;
      }
      match node.kind
      case Leaf(order) =>
        newMax := if maxFound < order then order else maxFound;
        VisitLeaf(nodes, links, rootIdx, leafOf, log, orders, rest, nodeIdx, query, maxFound, newMax, expanded);
      case Internal(children) =>
        assert OwnsChildren(nodes, links, rootIdx, nodeIdx);
        VisitInternal(nodes, links, rootIdx, leafOf, log, orders, rest, nodeIdx, query, maxFound, expanded);
        PushImproving(children, maxFound);
        newExpanded := expanded + {nodeIdx};
    }

    /** The pruned search, with its fast path, returns what a scan of the whole log returns. */
    method FindMaxOrdering(query: Bounds) returns (max: nat)
      requires Consistent(nodes, links, root, maxLeaf, leafOf, log, orders)
      modifies this`searchStack
      ensures max == MaxIntersecting(log, orders, query)
    {
      if root.None? {
        return 0;
      }
      var rootIdx := root.value;

      if maxLeaf.Some? {
        var maxNode := nodes[maxLeaf.value];
        if query.Intersects(maxNode.bounds) {
          ghost var k := links[maxLeaf.value].slot;
          assert log[k] == maxNode.bounds && orders[k] == maxNode.maxOrder;
          MaxIntersectingUnique(log, orders, query, maxNode.maxOrder);
          return maxNode.maxOrder;
        }
      }

      searchStack := [rootIdx];
      var maxFound := 0;
      ghost var expanded: set<nat> := {};
      SearchFromRoot(nodes, links, rootIdx, leafOf, log, orders, query);

      while |searchStack| > 0
        invariant Searching(nodes, links, rootIdx, leafOf, log, orders, searchStack, query, maxFound, expanded)
        decreases IndexSet(|nodes|) - expanded, |searchStack|
      {
        maxFound, expanded := VisitTop(query, maxFound, rootIdx, expanded);
      }

      MaxIntersectingUnique(log, orders, query, maxFound);
      max := maxFound;
    }

    /** The first cheapest child of an internal node. */
    method ChooseChild(children: seq<nat>, bounds: Bounds) returns (bestPos: nat)
      requires children != [] && forall k :: 0 <= k < |children| ==> children[k] < |nodes|
      ensures IsCheapest(nodes, children, bounds, bestPos)
    {
      bestPos := 0;
      var bestCost := Cost(nodes, bounds, children[0]);
      for pos := 1 to |children|
        invariant bestPos < pos && bestCost == Cost(nodes, bounds, children[bestPos])
        invariant forall k :: 0 <= k < pos ==> bestCost <= Cost(nodes, bounds, children[k])
        invariant forall k :: 0 <= k < bestPos ==> bestCost < Cost(nodes, bounds, children[k])
      {
        var cost := Cost(nodes, bounds, children[pos]);
        if cost < bestCost {
          bestCost, bestPos := cost, pos;
        }
      }
    }

    /** Walks down the cheapest children to a node whose cheapest child is a leaf, recording the path. */
    method Descend(rootIdx: nat, bounds: Bounds, ghost base: seq<Node>) returns (current: nat, bestPos: nat)
      requires base <= nodes && Linked(base, links, rootIdx) && base[rootIdx].kind.Internal?
      modifies this`insertPath
      ensures IsPath(base, links, rootIdx, insertPath) && current == insertPath[|insertPath| - 1]
      ensures FollowsCheapest(nodes, insertPath, bounds)
      ensures CanSplit(base, current, bestPos)
      ensures IsCheapest(nodes, base[current].kind.children, bounds, bestPos)
    {
      insertPath := [];
      current := rootIdx;
      while true
        invariant current < |base| && base[current].kind.Internal?
        invariant IsPath(base, links, rootIdx, insertPath + [current])
        invariant FollowsCheapest(nodes, insertPath + [current], bounds)
        decreases MaxDepth(links) - links[current].depth
      {
        assert OwnsChildren(base, links, rootIdx, current);
        var children := nodes[current].kind.children;
        insertPath := insertPath + [current];
        bestPos := ChooseChild(children, bounds);
        var best := children[bestPos];
        if nodes[best].kind.Leaf? {
          return;
        }
        assert HasParent(base, links, best);
        DepthBounded(links, best);
        assert FollowsCheapest(nodes, insertPath + [best], bounds) by {
          assert insertPath + [best] == insertPath[..|insertPath| - 1] + [current] + [best];
        }
        current := best;
      }
    }

    /** Takes the new bounds and order into every node of the path, from the bottom up. */
    method Propagate(bounds: Bounds, order: nat, ghost rootIdx: nat)
      requires |links| == |nodes| && Linked(nodes, links, rootIdx)
      requires IsPath(nodes, links, rootIdx, insertPath)
      requires Settling(nodes, links, rootIdx, insertPath[|insertPath| - 1], bounds, order)
      requires Promotes(nodes, insertPath[|insertPath| - 1], order, None)
      modifies this`nodes
      ensures |nodes| == |old(nodes)|
      ensures Linked(nodes, links, rootIdx) && Labelled(nodes, links, rootIdx)
      ensures LeavesKept(old(nodes), nodes)
    {
      var updatedChild: Option<nat> := None;
      for k := |insertPath| downto 0
        invariant |nodes| == |old(nodes)|
        invariant Linked(nodes, links, rootIdx)
        invariant IsPath(nodes, links, rootIdx, insertPath)
        invariant LeavesKept(old(nodes), nodes)
        invariant if k == 0 then Labelled(nodes, links, rootIdx)
                  else
                    && Settling(nodes, links, rootIdx, insertPath[k - 1], bounds, order)
                    && Promotes(nodes, insertPath[k - 1], order, updatedChild)
      {
        var nodeIdx := insertPath[k];
        RaiseKeepsLinks(nodes, links, rootIdx, nodeIdx, bounds, order, updatedChild);
        RaiseSettles(nodes, links, rootIdx, nodeIdx, bounds, order, updatedChild);
        if k > 0 {
          RaisePromotes(nodes, links, rootIdx, nodeIdx, bounds, order, updatedChild);
        }
        nodes := nodes[nodeIdx := Raised(nodes[nodeIdx], bounds, order, updatedChild)];
        updatedChild := Some(nodeIdx);
      }
    }

    /** Adds the new leaf, already written behind `base`, to a node with room. */
    method AttachLeaf(rootIdx: nat, current: nat, bounds: Bounds, order: nat, ghost base: seq<Node>, ghost slot: nat)
      requires |links| == |base| && nodes == base + [LeafNode(bounds, order)]
      requires Linked(base, links, rootIdx) && Labelled(base, links, rootIdx)
      requires IsPath(base, links, rootIdx, insertPath) && current == insertPath[|insertPath| - 1]
      requires 0 < |base[current].kind.children| < MAX_CHILDREN
      modifies this`nodes, this`links
      ensures Hung(base, old(links), nodes, links, rootIdx, insertPath, bounds, order, slot)
    {
      AttachHangs(base, links, rootIdx, insertPath, bounds, order, slot);
      nodes := nodes[current := WithChild(nodes[current], |nodes| - 1, bounds, order)];
      links := AttachedLinks(links, current, slot);
      assert nodes == AttachedNodes(base, current, bounds, order);
    }

    /** Pairs the chosen child of a full node with the new leaf, already written behind `base`. */
    method SplitChild(rootIdx: nat, current: nat, bestPos: nat, bounds: Bounds, order: nat, ghost base: seq<Node>,
                      ghost slot: nat)
      requires |links| == |base| && nodes == base + [LeafNode(bounds, order)]
      requires Linked(base, links, rootIdx) && Labelled(base, links, rootIdx)
      requires IsPath(base, links, rootIdx, insertPath) && current == insertPath[|insertPath| - 1]
      requires CanSplit(base, current, bestPos)
      modifies this`nodes, this`links
      ensures Hung(base, old(links), nodes, links, rootIdx, insertPath, bounds, order, slot)
    {
      var sibling := nodes[current].kind.children[bestPos];
      var newInternalIdx := |nodes|;
      SplitHangs(base, links, rootIdx, insertPath, bestPos, bounds, order, slot);
      var pair := PairNode(nodes, sibling, |nodes| - 1, bounds, order);
      nodes := nodes + [pair];
      nodes := nodes[current := WithSplit(nodes[current], bestPos, newInternalIdx, pair.maxOrder)];
      links := SplitLinks(links, current, sibling, slot);
      assert nodes == SplitNodes(base, current, bestPos, bounds, order);
    }

    /** Puts a new root above the old one, a leaf, and the new leaf. */
    method PairRoot(rootIdx: nat, bounds: Bounds, order: nat, ghost base: seq<Node>, ghost slot: nat)
      requires |links| == |base| && nodes == base + [LeafNode(bounds, order)]
      requires Linked(base, links, rootIdx) && Labelled(base, links, rootIdx) && base[rootIdx].kind.Leaf?
      modifies this`nodes, this`links, this`root
      ensures Grown(base, old(links), nodes, links, bounds, order, slot)
      ensures root.Some? && Linked(nodes, links, root.value) && Labelled(nodes, links, root.value)
    {
      RootPairIsLabelled(base, links, rootIdx, bounds, order, slot);
      var newLeafIdx, newRootIdx := |nodes| - 1, |nodes|;
      nodes := nodes + [PairNode(nodes, rootIdx, newLeafIdx, bounds, order)];
      links := RootPairLinks(links, rootIdx, slot);
      assert nodes == RootPairNodes(base, rootIdx, bounds, order);
      root := Some(newRootIdx);
    }

    /** Adds a leaf for `bounds` and returns its index. */
    method InsertLeaf(bounds: Bounds, order: nat) returns (newLeafIdx: nat)
      requires |links| == |nodes|
      requires root.None? ==> nodes == []
      requires root.Some? ==> Linked(nodes, links, root.value) && Labelled(nodes, links, root.value)
      modifies this`nodes, this`links, this`root, this`insertPath
      ensures newLeafIdx == |old(nodes)|
      ensures Grown(old(nodes), old(links), nodes, links, bounds, order, |log|)
      ensures root.Some? && Linked(nodes, links, root.value) && Labelled(nodes, links, root.value)
    {
      newLeafIdx := |nodes|;
      ghost var base, oldLinks := nodes, links;
      nodes := nodes + [LeafNode(bounds, order)];
      if root.None? {
        root := Some(newLeafIdx);
        links := [Link(0, 0, |log|)];
        return;
      }
      var rootIdx := root.value;
      if nodes[rootIdx].kind.Leaf? {
        PairRoot(rootIdx, bounds, order, base, |log|);
        return;
      }
      var current, bestPos := Descend(rootIdx, bounds, base);
      assert OwnsChildren(base, links, rootIdx, current);
      if |nodes[current].kind.children| < MAX_CHILDREN {
        AttachLeaf(rootIdx, current, bounds, order, base, |log|);
      } else {
        SplitChild(rootIdx, current, bestPos, bounds, order, base, |log|);
      }
      ghost var settled := nodes;
      Propagate(bounds, order, rootIdx);
      GrownRewritten(base, oldLinks, settled, nodes, links, bounds, order, |log|);
    }

    /** Grows the tree by a leaf of the given order and keeps the largest leaf known. */
    method AddLeaf(newBounds: Bounds, ordering: nat)
      requires Consistent(nodes, links, root, maxLeaf, leafOf, log, orders)
      modifies this
      ensures Consistent(nodes, links, root, maxLeaf, leafOf, log, orders)
      ensures log == old(log) + [newBounds] && orders == old(orders) + [ordering]
    {
      ghost var base, oldLinks := nodes, links;
      var newLeafIdx := InsertLeaf(newBounds, ordering);
      InsertedIsConsistent(base, oldLinks, old(root), maxLeaf, leafOf, log, orders, nodes, links, root.value,
                           newBounds, ordering);
      leafOf := leafOf + [newLeafIdx];
      log := log + [newBounds];
      orders := orders + [ordering];
      maxLeaf := NextMaxLeaf(maxLeaf, nodes, newLeafIdx, ordering);
    }

    /** The order returned is one more than the largest order among the bounds inserted earlier
        that meet the new one, exactly as a scan of the whole list would give it. */
    method Insert(newBounds: Bounds) returns (ordering: nat)
      requires Valid()
      modifies this
      ensures Valid()
      ensures log == old(log) + [newBounds]
      ensures ordering == 1 + MaxIntersecting(old(log), Orders(old(log)), newBounds)
      ensures orders == old(orders) + [ordering]
    {
      OrdersGrow(log, newBounds);
      ghost var grown := Orders(log + [newBounds]);
      var maxIntersecting := FindMaxOrdering(newBounds);
      ordering := maxIntersecting + 1;
      assert orders + [ordering] == grown;
      AddLeaf(newBounds, ordering);
    }
  }

  /** The loop invariant of the search. */
  ghost predicate Searching(nodes: seq<Node>, links: seq<Link>, root: nat, leafOf: seq<nat>, log: seq<Bounds>,
                            orders: seq<nat>,
                            stack: seq<nat>, query: Bounds, maxFound: nat, expanded: set<nat>)
  {
    && Linked(nodes, links, root)
    && Labelled(nodes, links, root)
    && Records(nodes, links, leafOf, log, orders)
    && Frontier(nodes, links, root, stack, expanded)
    && SearchCovers(nodes, links, root, leafOf, log, orders, stack, query, maxFound)
    && Attained(log, orders, query, maxFound)
  }

  lemma VisitPruned(nodes: seq<Node>, links: seq<Link>, root: nat, leafOf: seq<nat>, log: seq<Bounds>, orders: seq<nat>,
                    rest: seq<nat>, top: nat, query: Bounds, maxFound: nat, expanded: set<nat>)
    requires Searching(nodes, links, root, leafOf, log, orders, rest + [top], query, maxFound, expanded)
    requires top < |nodes|
    requires nodes[top].maxOrder <= maxFound || !query.Intersects(nodes[top].bounds)
    ensures Searching(nodes, links, root, leafOf, log, orders, rest, query, maxFound, expanded)
  {
    PopFrontier(nodes, links, root, rest, top, expanded);
    DropPruned(nodes, links, root, leafOf, log, orders, rest, top, query, maxFound);
  }

  lemma VisitLeaf(nodes: seq<Node>, links: seq<Link>, root: nat, leafOf: seq<nat>, log: seq<Bounds>, orders: seq<nat>,
                  rest: seq<nat>, top: nat, query: Bounds, maxFound: nat, newMax: nat, expanded: set<nat>)
    requires Searching(nodes, links, root, leafOf, log, orders, rest + [top], query, maxFound, expanded)
    requires top < |nodes| && nodes[top].kind.Leaf? && query.Intersects(nodes[top].bounds)
    requires newMax == if maxFound < nodes[top].kind.order then nodes[top].kind.order else maxFound
    ensures Searching(nodes, links, root, leafOf, log, orders, rest, query, newMax, expanded)
  {
    PopFrontier(nodes, links, root, rest, top, expanded);
    DropLeaf(nodes, links, root, leafOf, log, orders, rest, top, query, maxFound, newMax);
    assert log[links[top].slot] == nodes[top].bounds;
  }

  lemma VisitInternal(nodes: seq<Node>, links: seq<Link>, root: nat, leafOf: seq<nat>, log: seq<Bounds>,
                      orders: seq<nat>,
                      rest: seq<nat>, top: nat, query: Bounds, maxFound: nat, expanded: set<nat>)
    requires Searching(nodes, links, root, leafOf, log, orders, rest + [top], query, maxFound, expanded)
    requires top < |nodes| && nodes[top].kind.Internal? && OwnsChildren(nodes, links, root, top)
    ensures top !in expanded
    ensures Searching(nodes, links, root, leafOf, log, orders,
                      rest + Improving(nodes, nodes[top].kind.children, maxFound), query, maxFound, expanded + {top})
  {
    var pushed := Improving(nodes, nodes[top].kind.children, maxFound);
    assert Frontier(nodes, links, root, rest + pushed, expanded + {top}) by {
      ImprovingDistinct(nodes, nodes[top].kind.children, maxFound);
      ExpandFrontier(nodes, links, root, rest, top, pushed, expanded);
    }
    assert SearchCovers(nodes, links, root, leafOf, log, orders, rest + pushed, query, maxFound) by {
      ExpandTop(nodes, links, root, leafOf, log, orders, rest, top, query, maxFound);
    }
    PopFrontier(nodes, links, root, rest, top, expanded);
  }

  lemma SearchFromRoot(nodes: seq<Node>, links: seq<Link>, root: nat, leafOf: seq<nat>, log: seq<Bounds>,
                       orders: seq<nat>,
                       query: Bounds)
    requires Linked(nodes, links, root) && Records(nodes, links, leafOf, log, orders)
    ensures SearchCovers(nodes, links, root, leafOf, log, orders, [root], query, 0)
    ensures Frontier(nodes, links, root, [root], {})
  {
    forall k | 0 <= k < |log|
      ensures Reached(nodes, links, root, [root], leafOf[k])
    {
      RootIsAboveAll(nodes, links, root, leafOf[k]);
      assert Under(nodes, links, root, [root][0], leafOf[k]);
    }
  }

  lemma PopFrontier(nodes: seq<Node>, links: seq<Link>, root: nat, rest: seq<nat>, top: nat, expanded: set<nat>)
    requires |links| == |nodes| && Frontier(nodes, links, root, rest + [top], expanded)
    ensures Frontier(nodes, links, root, rest, expanded) && top < |nodes| && top !in expanded
  {
    var before := rest + [top];
    assert before[|rest|] == top;
    assert forall j :: 0 <= j < |rest| ==> before[j] == rest[j];
  }
}

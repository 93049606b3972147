/** The dispatch tree: nodes linked to their parents, built under three parallel stacks,
    and the reuse of a subtree of the previous frame. */
module DispatchTrees {
  import opened Wrappers
  import opened KeyContexts

  datatype DispatchNode = DispatchNode(
    keyListeners: seq<nat>,
    actionListeners: seq<nat>,
    modifiersListeners: seq<nat>,
    context: Option<KeyContext>,
    focusId: Option<nat>,
    viewId: Option<nat>,
    parent: Option<nat>)

  function FreshNode(parent: Option<nat>): DispatchNode {
    DispatchNode([], [], [], None, None, None, parent)
  }

  // ----- paths and projections -----

  ghost predicate ParentsPrecede(nodes: seq<DispatchNode>) {
    forall n :: 0 <= n < |nodes| && nodes[n].parent.Some? ==> nodes[n].parent.value < n
  }

  /** The nodes from the root down to `n`. */
  ghost function Path(nodes: seq<DispatchNode>, n: nat): (path: seq<nat>)
    requires ParentsPrecede(nodes) && n < |nodes|
    ensures path != [] && path[|path| - 1] == n
  {
    if nodes[n].parent.None? then [n] else Path(nodes, nodes[n].parent.value) + [n]
  }

  ghost predicate InRange(nodes: seq<DispatchNode>, path: seq<nat>) {
    forall k :: 0 <= k < |path| ==> path[k] < |nodes|
  }

  /** A stack after pushing a value that may be absent. */
  function Push<T>(s: seq<T>, o: Option<T>): seq<T> {
    if o.Some? then s + [o.value] else s
  }

  ghost function ContextsOf(nodes: seq<DispatchNode>, path: seq<nat>): seq<KeyContext>
    requires InRange(nodes, path)
  {
    if path == [] then []
    else Push(ContextsOf(nodes, path[..|path| - 1]), nodes[path[|path| - 1]].context)
  }

  ghost function ViewsOf(nodes: seq<DispatchNode>, path: seq<nat>): seq<nat>
    requires InRange(nodes, path)
  {
    if path == [] then []
    else Push(ViewsOf(nodes, path[..|path| - 1]), nodes[path[|path| - 1]].viewId)
  }

  /** `after` is `before` with one more element on top. */
  ghost predicate Extends<T>(before: seq<T>, after: seq<T>, x: T) {
    |after| == |before| + 1 && after[..|before|] == before && after[|before|] == x
  }

  function LastOf<T>(s: seq<T>): Option<T> {
    if s == [] then None else Some(s[|s| - 1])
  }

  /** The view a node is drawn in: its own or the nearest ancestor's. */
  ghost function EffectiveView(nodes: seq<DispatchNode>, n: Option<nat>): Option<nat>
    requires ParentsPrecede(nodes) && (n.Some? ==> n.value < |nodes|)
    decreases if n.Some? then n.value + 1 else 0
  {
    if n.None? then None
    else if nodes[n.value].viewId.Some? then nodes[n.value].viewId
    else EffectiveView(nodes, nodes[n.value].parent)
  }

  lemma {:induction false} PathInRange(nodes: seq<DispatchNode>, n: nat)
    requires ParentsPrecede(nodes) && n < |nodes|
    ensures InRange(nodes, Path(nodes, n))
    ensures forall k :: 0 <= k < |Path(nodes, n)| - 1 ==> Path(nodes, n)[k] < n
  {
    if nodes[n].parent.Some? {
      PathInRange(nodes, nodes[n].parent.value);
    }
  }

  /** Appending nodes, or changing anything but parents, leaves paths alone. */
  lemma {:induction false} PathStable(nodes: seq<DispatchNode>, nodes': seq<DispatchNode>, n: nat)
    requires ParentsPrecede(nodes) && ParentsPrecede(nodes') && n < |nodes| <= |nodes'|
    requires forall k :: 0 <= k < |nodes| ==> nodes'[k].parent == nodes[k].parent
    ensures Path(nodes', n) == Path(nodes, n)
  {
    if nodes[n].parent.Some? {
      PathStable(nodes, nodes', nodes[n].parent.value);
    }
  }

  lemma {:induction false} ProjectionsStable(nodes: seq<DispatchNode>, nodes': seq<DispatchNode>, path: seq<nat>)
    requires InRange(nodes, path) && |nodes| <= |nodes'|
    requires forall k :: 0 <= k < |path| ==>
               nodes'[path[k]].context == nodes[path[k]].context && nodes'[path[k]].viewId == nodes[path[k]].viewId
    ensures ContextsOf(nodes', path) == ContextsOf(nodes, path)
    ensures ViewsOf(nodes', path) == ViewsOf(nodes, path)
  {
    if path != [] {
      ProjectionsStable(nodes, nodes', path[..|path| - 1]);
    }
  }

  /** The top of the projected view stack is the effective view of the active node. */
  lemma {:induction false} LastViewIsEffective(nodes: seq<DispatchNode>, n: nat)
    requires ParentsPrecede(nodes) && n < |nodes|
    ensures InRange(nodes, Path(nodes, n))
    ensures LastOf(ViewsOf(nodes, Path(nodes, n))) == EffectiveView(nodes, Some(n))
  {
    PathInRange(nodes, n);
    var path := Path(nodes, n);
    if nodes[n].parent.Some? {
      LastViewIsEffective(nodes, nodes[n].parent.value);
      assert path[..|path| - 1] == Path(nodes, nodes[n].parent.value);
    } else {
      assert path[..|path| - 1] == [];
    }
  }

  /** The path begins at a node without a parent, and each further node's parent is the one before. */
  lemma {:induction false} PathIsParentChain(nodes: seq<DispatchNode>, n: nat, k: nat)
    requires ParentsPrecede(nodes) && n < |nodes| && k < |Path(nodes, n)|
    ensures InRange(nodes, Path(nodes, n)) && Path(nodes, n)[|Path(nodes, n)| - 1] == n
    ensures nodes[Path(nodes, n)[k]].parent == if k == 0 then None else Some(Path(nodes, n)[k - 1])
    decreases n
  {
    PathInRange(nodes, n);
    var path := Path(nodes, n);
    if nodes[n].parent.Some? {
      var up := Path(nodes, nodes[n].parent.value);
      assert path == up + [n];
      if k < |path| - 1 {
        PathIsParentChain(nodes, nodes[n].parent.value, k);
      }
    }
  }

  /** What one node contributes to the context and view stacks. */
  lemma ProjectionsOfOne(nodes: seq<DispatchNode>, n: nat)
    requires n < |nodes|
    ensures ContextsOf(nodes, [n]) == match nodes[n].context { case None => [] case Some(c) => [c] }
    ensures ViewsOf(nodes, [n]) == match nodes[n].viewId { case None => [] case Some(v) => [v] }
  {
    assert [n][..0] == [];
  }

  /** The projections of a path are those of its parts, in order. */
  lemma {:induction false} ProjectionsAdd(nodes: seq<DispatchNode>, a: seq<nat>, b: seq<nat>)
    requires InRange(nodes, a) && InRange(nodes, b)
    ensures InRange(nodes, a + b)
    ensures ContextsOf(nodes, a + b) == ContextsOf(nodes, a) + ContextsOf(nodes, b)
    ensures ViewsOf(nodes, a + b) == ViewsOf(nodes, a) + ViewsOf(nodes, b)
    decreases |b|
  {
    if b == [] {
      assert a + b == a;
    } else {
      var rest := b[..|b| - 1];
      assert (a + b)[..|a + b| - 1] == a + rest;
      ProjectionsAdd(nodes, a, rest);
    }
  }

  // ----- invariants -----

  /** The node stack is empty or the path from the root to the active node. */
  ghost predicate Chained(nodes: seq<DispatchNode>, stack: seq<nat>) {
    && ParentsPrecede(nodes)
    && InRange(nodes, stack)
    && (stack != [] ==> stack == Path(nodes, stack[|stack| - 1]))
  }

  /** The context and view stacks list what the nodes on the stack carry. */
  ghost predicate Projects(nodes: seq<DispatchNode>, stack: seq<nat>, contexts: seq<KeyContext>, views: seq<nat>) {
    InRange(nodes, stack) && contexts == ContextsOf(nodes, stack) && views == ViewsOf(nodes, stack)
  }

  /** Ids are looked up at nodes that carry them. */
  ghost predicate FocusLookupOk(nodes: seq<DispatchNode>, focusable: map<nat, nat>) {
    forall f :: f in focusable ==> focusable[f] < |nodes| && nodes[focusable[f]].focusId == Some(f)
  }

  ghost predicate ViewLookupOk(nodes: seq<DispatchNode>, views: map<nat, nat>) {
    forall v :: v in views ==> views[v] < |nodes| && nodes[views[v]].viewId == Some(v)
  }

  /** The lookup once an id, if there is one, is registered at `n`. */
  function Register(lookup: map<nat, nat>, id: Option<nat>, n: nat): map<nat, nat> {
    if id.Some? then lookup[id.value := n] else lookup
  }

  ghost predicate CarriesFocus(nodes: seq<DispatchNode>, lo: nat, f: nat) {
    exists n :: lo <= n < |nodes| && nodes[n].focusId == Some(f)
  }

  ghost predicate CarriesView(nodes: seq<DispatchNode>, lo: nat, v: nat) {
    exists n :: lo <= n < |nodes| && nodes[n].viewId == Some(v)
  }

  /** The focus ids of the nodes from `lo` on have been registered there, and all others are as they were. */
  ghost predicate FocusesRegistered(nodes: seq<DispatchNode>, lo: nat, was: map<nat, nat>, now: map<nat, nat>) {
    && (forall f: nat :: f in now <==> f in was || CarriesFocus(nodes, lo, f))
    && (forall f: nat :: f in now ==> if CarriesFocus(nodes, lo, f) then now[f] >= lo else f in was && now[f] == was[f])
  }

  ghost predicate ViewsRegistered(nodes: seq<DispatchNode>, lo: nat, was: map<nat, nat>, now: map<nat, nat>) {
    && (forall v: nat :: v in now <==> v in was || CarriesView(nodes, lo, v))
    && (forall v: nat :: v in now ==> if CarriesView(nodes, lo, v) then now[v] >= lo else v in was && now[v] == was[v])
  }

  lemma CarriesFocusGrows(nodes: seq<DispatchNode>, node: DispatchNode, lo: nat, f: nat)
    requires lo <= |nodes|
    ensures CarriesFocus(nodes + [node], lo, f) <==> CarriesFocus(nodes, lo, f) || node.focusId == Some(f)
  {
    var after := nodes + [node];
    if n :| lo <= n < |nodes| && nodes[n].focusId == Some(f) {
      assert after[n].focusId == Some(f);
    }
    if node.focusId == Some(f) {
      assert after[|nodes|].focusId == Some(f);
    }
  }

  lemma CarriesViewGrows(nodes: seq<DispatchNode>, node: DispatchNode, lo: nat, v: nat)
    requires lo <= |nodes|
    ensures CarriesView(nodes + [node], lo, v) <==> CarriesView(nodes, lo, v) || node.viewId == Some(v)
  {
    var after := nodes + [node];
    if n :| lo <= n < |nodes| && nodes[n].viewId == Some(v) {
      assert after[n].viewId == Some(v);
    }
    if node.viewId == Some(v) {
      assert after[|nodes|].viewId == Some(v);
    }
  }

  lemma RegistrationGrows(nodes: seq<DispatchNode>, node: DispatchNode, lo: nat, focusWas: map<nat, nat>,
                          focusNow: map<nat, nat>, viewsWas: map<nat, nat>, viewsNow: map<nat, nat>)
    requires lo <= |nodes|
    requires FocusesRegistered(nodes, lo, focusWas, focusNow) && ViewsRegistered(nodes, lo, viewsWas, viewsNow)
    ensures FocusesRegistered(nodes + [node], lo, focusWas, Register(focusNow, node.focusId, |nodes|))
    ensures ViewsRegistered(nodes + [node], lo, viewsWas, Register(viewsNow, node.viewId, |nodes|))
  {
    forall f: nat
      ensures CarriesFocus(nodes + [node], lo, f) <==> CarriesFocus(nodes, lo, f) || node.focusId == Some(f)
    {
      CarriesFocusGrows(nodes, node, lo, f);
    }
    forall v: nat
      ensures CarriesView(nodes + [node], lo, v) <==> CarriesView(nodes, lo, v) || node.viewId == Some(v)
    {
      CarriesViewGrows(nodes, node, lo, v);
    }
  }

  /** The lookup stays exact when a focus id is recorded, unless another id pointed to the node. */
  lemma FocusRecorded(nodes: seq<DispatchNode>, focusable: map<nat, nat>, views: map<nat, nat>, n: nat, focusId: nat)
    requires FocusLookupOk(nodes, focusable) && ViewLookupOk(nodes, views) && n < |nodes|
    ensures var after := nodes[n := nodes[n].(focusId := Some(focusId))];
            && ViewLookupOk(after, views)
            && (FocusLookupOk(after, focusable[focusId := n])
                <==> forall f :: f in focusable && focusable[f] == n ==> f == focusId)
  {
    var recorded := focusable[focusId := n];
    assert forall f :: f in recorded && f != focusId ==> f in focusable;
    assert forall f :: f in focusable ==> f in recorded;
  }

  lemma ChainPops(nodes: seq<DispatchNode>, stack: seq<nat>)
    requires Chained(nodes, stack) && stack != []
    ensures Chained(nodes, stack[..|stack| - 1])
    ensures LastOf(stack[..|stack| - 1]) == nodes[stack[|stack| - 1]].parent
  {
    var n := stack[|stack| - 1];
    if nodes[n].parent.Some? {
      assert stack[..|stack| - 1] == Path(nodes, nodes[n].parent.value);
    }
  }

  lemma ChainPushes(nodes: seq<DispatchNode>, stack: seq<nat>, n: nat)
    requires Chained(nodes, stack) && n < |nodes| && nodes[n].parent == LastOf(stack)
    ensures Chained(nodes, stack + [n]) && stack + [n] == Path(nodes, n)
  {
  }

  lemma ProjectionsPush(nodes: seq<DispatchNode>, stack: seq<nat>, n: nat)
    requires InRange(nodes, stack) && n < |nodes|
    ensures InRange(nodes, stack + [n])
    ensures ContextsOf(nodes, stack + [n]) == Push(ContextsOf(nodes, stack), nodes[n].context)
    ensures ViewsOf(nodes, stack + [n]) == Push(ViewsOf(nodes, stack), nodes[n].viewId)
  {
    assert (stack + [n])[..|stack|] == stack;
  }

  function Reverse<T>(s: seq<T>): (r: seq<T>)
    ensures |r| == |s|
  {
    seq(|s|, i requires 0 <= i < |s| => s[|s| - 1 - i])
  }

  lemma PushKeepsChain(nodes: seq<DispatchNode>, stack: seq<nat>, node: DispatchNode)
    requires Chained(nodes, stack) && node.parent == LastOf(stack)
    ensures Chained(nodes + [node], stack + [|nodes|])
  {
    var nodes' := nodes + [node];
    if stack != [] {
      PathStable(nodes, nodes', stack[|stack| - 1]);
    }
    ChainPushes(nodes', stack, |nodes|);
  }

  lemma PushKeepsProjections(nodes: seq<DispatchNode>, stack: seq<nat>, contexts: seq<KeyContext>, views: seq<nat>,
                             node: DispatchNode)
    requires Projects(nodes, stack, contexts, views)
    ensures Projects(nodes + [node], stack + [|nodes|], Push(contexts, node.context), Push(views, node.viewId))
  {
    var nodes' := nodes + [node];
    ProjectionsStable(nodes, nodes', stack);
    ProjectionsPush(nodes', stack, |nodes|);
  }

  /** Part of the way up: what is above plus what was pushed, reversed, makes up the whole path. */
  ghost predicate Climbing(nodes: seq<DispatchNode>, current: Option<nat>, stack: seq<nat>, contexts: seq<KeyContext>,
                           views: seq<nat>, whole: seq<nat>)
    requires ParentsPrecede(nodes) && InRange(nodes, whole)
  {
    match current
    case None =>
      && Reverse(stack) == whole
      && Reverse(contexts) == ContextsOf(nodes, whole)
      && Reverse(views) == ViewsOf(nodes, whole)
    case Some(n) =>
      && n < |nodes| && InRange(nodes, Path(nodes, n))
      && Path(nodes, n) + Reverse(stack) == whole
      && ContextsOf(nodes, Path(nodes, n)) + Reverse(contexts) == ContextsOf(nodes, whole)
      && ViewsOf(nodes, Path(nodes, n)) + Reverse(views) == ViewsOf(nodes, whole)
  }

  lemma ReversePush<T>(above: seq<T>, o: Option<T>, s: seq<T>)
    ensures Push(above, o) + Reverse(s) == above + Reverse(Push(s, o))
  {
    if o.Some? {
      assert Reverse(s + [o.value]) == [o.value] + Reverse(s);
    }
  }

  lemma ClimbStep(nodes: seq<DispatchNode>, id: nat, stack: seq<nat>, contexts: seq<KeyContext>, views: seq<nat>,
                  whole: seq<nat>)
    requires ParentsPrecede(nodes) && InRange(nodes, whole)
    requires Climbing(nodes, Some(id), stack, contexts, views, whole)
    ensures Climbing(nodes, nodes[id].parent, stack + [id], Push(contexts, nodes[id].context),
                     Push(views, nodes[id].viewId), whole)
  {
    if nodes[id].parent.Some? {
      var above := Path(nodes, nodes[id].parent.value);
      PathInRange(nodes, nodes[id].parent.value);
      assert Path(nodes, id) == above + [id];
      ProjectionsPush(nodes, above, id);
      ReversePush(above, Some(id), stack);
      ReversePush(ContextsOf(nodes, above), nodes[id].context, contexts);
      ReversePush(ViewsOf(nodes, above), nodes[id].viewId, views);
    } else {
      ProjectionsPush(nodes, [], id);
      assert [] + [id] == [id];
      assert Reverse(stack + [id]) == [id] + Reverse(stack);
      ReverseLast(nodes[id].context, contexts);
      ReverseLast(nodes[id].viewId, views);
    }
  }

  lemma ReverseLast<T>(o: Option<T>, s: seq<T>)
    ensures Push([], o) + Reverse(s) == Reverse(Push(s, o))
  {
  }

  /** The stacks agree with each other and with the nodes. */
  ghost predicate Settled(nodes: seq<DispatchNode>, stack: seq<nat>, contexts: seq<KeyContext>, views: seq<nat>) {
    Chained(nodes, stack) && Projects(nodes, stack, contexts, views)
  }

  lemma PushSettles(nodes: seq<DispatchNode>, stack: seq<nat>, contexts: seq<KeyContext>, views: seq<nat>, n: nat)
    requires Settled(nodes, stack, contexts, views) && n < |nodes| && nodes[n].parent == LastOf(stack)
    ensures Settled(nodes, stack + [n], Push(contexts, nodes[n].context), Push(views, nodes[n].viewId))
    ensures stack + [n] == Path(nodes, n)
  {
    ChainPushes(nodes, stack, n);
    ProjectionsPush(nodes, stack, n);
  }

  lemma AppendSettles(nodes: seq<DispatchNode>, stack: seq<nat>, contexts: seq<KeyContext>, views: seq<nat>,
                      node: DispatchNode)
    requires Settled(nodes, stack, contexts, views) && node.parent == LastOf(stack)
    ensures Settled(nodes + [node], stack + [|nodes|], Push(contexts, node.context), Push(views, node.viewId))
  {
    PushKeepsChain(nodes, stack, node);
    PushKeepsProjections(nodes, stack, contexts, views, node);
  }

  lemma ClimbStart(nodes: seq<DispatchNode>, id: nat)
    requires ParentsPrecede(nodes) && id < |nodes|
    ensures InRange(nodes, Path(nodes, id))
    ensures Climbing(nodes, Some(id), [], [], [], Path(nodes, id))
  {
    PathInRange(nodes, id);
  }

  lemma ClimbEnd(nodes: seq<DispatchNode>, id: nat, stack: seq<nat>, contexts: seq<KeyContext>, views: seq<nat>)
    requires ParentsPrecede(nodes) && id < |nodes| && InRange(nodes, Path(nodes, id))
    requires Climbing(nodes, None, stack, contexts, views, Path(nodes, id))
    ensures Reverse(stack) == Path(nodes, id) && Settled(nodes, Reverse(stack), Reverse(contexts), Reverse(views))
  {
  }

  // ----- setting what a node carries -----

  lemma {:induction false} ReplaceLast(nodes: seq<DispatchNode>, stack: seq<nat>, node: DispatchNode)
    requires Chained(nodes, stack) && stack != []
    requires node.parent == nodes[stack[|stack| - 1]].parent
    ensures var n, nodes' := stack[|stack| - 1], nodes[stack[|stack| - 1] := node];
            && Chained(nodes', stack)
            && ContextsOf(nodes', stack) == Push(ContextsOf(nodes, stack[..|stack| - 1]), node.context)
            && ViewsOf(nodes', stack) == Push(ViewsOf(nodes, stack[..|stack| - 1]), node.viewId)
  {
    var n := stack[|stack| - 1];
    var nodes' := nodes[n := node];
    PathStable(nodes, nodes', n);
    PathInRange(nodes, n);
    ProjectionsStable(nodes, nodes', stack[..|stack| - 1]);
  }

  /** Recording a context keeps the stacks in step exactly when the node had none. */
  lemma SetContextSettles(nodes: seq<DispatchNode>, stack: seq<nat>, contexts: seq<KeyContext>, views: seq<nat>,
                          c: KeyContext)
    requires Settled(nodes, stack, contexts, views) && stack != []
    ensures var n := stack[|stack| - 1];
            Settled(nodes[n := nodes[n].(context := Some(c))], stack, contexts + [c], views) <==> nodes[n].context.None?
  {
    var n := stack[|stack| - 1];
    ReplaceLast(nodes, stack, nodes[n].(context := Some(c)));
  }

  lemma SetViewSettles(nodes: seq<DispatchNode>, stack: seq<nat>, contexts: seq<KeyContext>, views: seq<nat>, v: nat)
    requires Settled(nodes, stack, contexts, views) && stack != []
    ensures var n := stack[|stack| - 1];
            Settled(nodes[n := nodes[n].(viewId := Some(v))], stack, contexts, views + [v]) <==> nodes[n].viewId.None?
  {
    var n := stack[|stack| - 1];
    ReplaceLast(nodes, stack, nodes[n].(viewId := Some(v)));
  }

  lemma SetOtherSettles(nodes: seq<DispatchNode>, stack: seq<nat>, contexts: seq<KeyContext>, views: seq<nat>,
                        node: DispatchNode)
    requires Settled(nodes, stack, contexts, views) && stack != []
    requires var old_ := nodes[stack[|stack| - 1]];
             node.context == old_.context && node.viewId == old_.viewId && node.parent == old_.parent
    ensures Settled(nodes[stack[|stack| - 1] := node], stack, contexts, views)
  {
    ReplaceLast(nodes, stack, node);
  }

  /** The node that reuse makes of a source node: an own view is dropped when it is the enclosing one. */
  function MovedNode(source: DispatchNode, parent: Option<nat>, enclosing: Option<nat>): DispatchNode {
    source.(parent := parent, viewId := if source.viewId == enclosing then None else source.viewId)
  }

  function Emptied(source: DispatchNode): DispatchNode {
    source.(keyListeners := [], actionListeners := [], modifiersListeners := [])
  }

  // ----- reusing a range of nodes of another tree -----

  /** A stack of source node ids, topmost first. */
  datatype Chain = Empty | Link(top: nat, below: Chain) {
    ghost function Top(): Option<nat> {
      if Link? then Some(top) else None
    }

    ghost predicate Has(n: nat) {
      Link? && (top == n || below.Has(n))
    }

    ghost predicate Within(lo: nat, hi: nat) {
      Link? ==> lo <= top < hi && below.Within(lo, hi)
    }
  }

  ghost function ChainOf(s: seq<nat>): Chain {
    if s == [] then Empty else Link(s[|s| - 1], ChainOf(s[..|s| - 1]))
  }

  /** Where the loop's own stack is cut: at the parent, or to nothing if the parent is not on it. */
  ghost function PopTo(stack: Chain, parent: Option<nat>): Chain {
    if stack.Empty? || parent == Some(stack.top) then stack else PopTo(stack.below, parent)
  }

  /** The loop's own stack once the nodes from `start` to before `i` have been moved. */
  ghost function SourceStack(src: seq<DispatchNode>, start: nat, i: nat): (stack: Chain)
    requires start <= i <= |src|
    ensures stack.Within(start, i)
  {
    if i == start then Empty
    else
      CutStaysWithin(SourceStack(src, start, i - 1), src[i - 1].parent, start, i - 1);
      WithinGrows(PopTo(SourceStack(src, start, i - 1), src[i - 1].parent), start, i - 1);
      Link(i - 1, PopTo(SourceStack(src, start, i - 1), src[i - 1].parent))
  }

  lemma {:induction false} CutStaysWithin(stack: Chain, parent: Option<nat>, lo: nat, hi: nat)
    requires stack.Within(lo, hi)
    ensures PopTo(stack, parent).Within(lo, hi)
  {
    if stack.Link? && parent != Some(stack.top) {
      CutStaysWithin(stack.below, parent, lo, hi);
    }
  }

  lemma {:induction false} WithinGrows(stack: Chain, lo: nat, hi: nat)
    requires stack.Within(lo, hi)
    ensures stack.Within(lo, hi + 1)
  {
    if stack.Link? {
      WithinGrows(stack.below, lo, hi);
    }
  }

  /** The parent the moved copy of source node `j` gets in the target. */
  ghost function NewParent(src: seq<DispatchNode>, start: nat, j: nat, base: nat, active: Option<nat>): (p: Option<nat>)
    requires start <= j < |src| && (active.Some? ==> active.value < base)
    ensures p.Some? ==> p.value < base + (j - start)
  {
    CutStaysWithin(SourceStack(src, start, j), src[j].parent, start, j);
    var top := PopTo(SourceStack(src, start, j), src[j].parent).Top();
    if top.None? then active else Some(base + (top.value - start))
  }

  /** The target once the nodes from `start` to before `i` have been moved. */
  ghost function Moved(src: seq<DispatchNode>, start: nat, i: nat, before: seq<DispatchNode>, active: Option<nat>)
    : (after: seq<DispatchNode>)
    requires start <= i <= |src| && ParentsPrecede(before) && (active.Some? ==> active.value < |before|)
    ensures |after| == |before| + (i - start) && ParentsPrecede(after) && before <= after
  {
    if i == start then before
    else
      var sofar := Moved(src, start, i - 1, before, active);
      var parent := NewParent(src, start, i - 1, |before|, active);
      sofar + [MovedNode(src[i - 1], parent, EffectiveView(sofar, parent))]
  }

  /** The target's stack is what it was outside the reuse, then the copies of the source stack. */
  ghost predicate Stacked(nodeStack: seq<nat>, outer: seq<nat>, sourceStack: seq<nat>, start: nat, base: nat) {
    && |nodeStack| == |outer| + |sourceStack|
    && nodeStack[..|outer|] == outer
    && forall k :: 0 <= k < |sourceStack| ==>
         start <= sourceStack[k] && nodeStack[|outer| + k] == base + (sourceStack[k] - start)
  }

  lemma StackedPush(nodeStack: seq<nat>, outer: seq<nat>, sourceStack: seq<nat>, start: nat, base: nat, i: nat,
                    pushed: seq<nat>)
    requires Stacked(nodeStack, outer, sourceStack, start, base) && start <= i
    requires Extends(nodeStack, pushed, base + (i - start))
    ensures Stacked(pushed, outer, sourceStack + [i], start, base)
    ensures ChainOf(sourceStack + [i]) == Link(i, ChainOf(sourceStack))
  {
    assert pushed[..|outer|] == pushed[..|nodeStack|][..|outer|];
    assert (sourceStack + [i])[..|sourceStack|] == sourceStack;
    forall k | 0 <= k < |sourceStack|
      ensures pushed[|outer| + k] == base + (sourceStack[k] - start)
    {
      assert pushed[..|nodeStack|][|outer| + k] == nodeStack[|outer| + k];
    }
  }

  lemma StackedPop(nodeStack: seq<nat>, outer: seq<nat>, sourceStack: seq<nat>, start: nat, base: nat)
    requires Stacked(nodeStack, outer, sourceStack, start, base) && sourceStack != []
    ensures nodeStack != []
    ensures Stacked(nodeStack[..|nodeStack| - 1], outer, sourceStack[..|sourceStack| - 1], start, base)
  {
    assert nodeStack[..|nodeStack| - 1][..|outer|] == nodeStack[..|outer|];
  }

  lemma StackedTop(nodeStack: seq<nat>, outer: seq<nat>, sourceStack: seq<nat>, start: nat, base: nat)
    requires Stacked(nodeStack, outer, sourceStack, start, base)
    ensures sourceStack != [] ==> LastOf(nodeStack) == Some(base + (sourceStack[|sourceStack| - 1] - start))
    ensures sourceStack == [] ==> nodeStack == outer
  {
    if sourceStack != [] {
      assert nodeStack[|outer| + (|sourceStack| - 1)] == base + (sourceStack[|sourceStack| - 1] - start);
    } else {
      assert nodeStack[..|outer|] == nodeStack;
    }
  }

  /** What one turn of the loop adds, read off the stacks. */
  lemma MovedStep(src: seq<DispatchNode>, start: nat, i: nat, before: seq<DispatchNode>, outer: seq<nat>,
                  rest: seq<nat>, nodes: seq<DispatchNode>, nodeStack: seq<nat>, contexts: seq<KeyContext>,
                  views: seq<nat>)
    requires start <= i < |src| && ParentsPrecede(before)
    requires LastOf(outer).Some? ==> LastOf(outer).value < |before|
    requires nodes == Moved(src, start, i, before, LastOf(outer))
    requires ChainOf(rest) == PopTo(SourceStack(src, start, i), src[i].parent)
    requires Stacked(nodeStack, outer, rest, start, |before|)
    requires Settled(nodes, nodeStack, contexts, views)
    ensures Moved(src, start, i + 1, before, LastOf(outer)) ==
            nodes + [MovedNode(src[i], LastOf(nodeStack), LastOf(views))]
    ensures SourceStack(src, start, i + 1) == Link(i, ChainOf(rest))
    ensures |nodes| == |before| + (i - start)
  {
    StackedTop(nodeStack, outer, rest, start, |before|);
    ViewOnTop(nodes, nodeStack, contexts, views);
    assert LastOf(nodeStack) == NewParent(src, start, i, |before|, LastOf(outer));
  }

  lemma ViewOnTop(nodes: seq<DispatchNode>, stack: seq<nat>, contexts: seq<KeyContext>, views: seq<nat>)
    requires Settled(nodes, stack, contexts, views)
    ensures LastOf(stack).Some? ==> LastOf(stack).value < |nodes|
    ensures LastOf(views) == EffectiveView(nodes, LastOf(stack))
  {
    if stack != [] {
      LastViewIsEffective(nodes, stack[|stack| - 1]);
    }
  }

  datatype Range = Range(start: nat, end: nat) {
    function Length(): nat {
      if start <= end then end - start else 0
    }

    predicate Has(j: nat) {
      start <= j < end
    }

    /** The part of the range that lies below `n`, possibly empty. */
    function Below(n: nat): (r: Range)
      ensures r.start <= r.end <= n
      ensures forall j: nat :: r.Has(j) <==> Has(j) && j < n
    {
      if start <= end <= n then this
      else if start <= n < end then Range(start, n)
      else Range(n, n)
    }
  }

  datatype ReusedSubtree = ReusedSubtree(oldRange: Range, newRange: Range, containsFocus: bool) {
    function RefreshNodeId(nodeId: nat): nat
      requires oldRange.start <= nodeId < oldRange.end
    {
      (nodeId - oldRange.start) + newRange.start
    }
  }

  ghost predicate FocusIn(src: seq<DispatchNode>, start: nat, end: nat, focus: Option<nat>)
    requires end <= |src|
  {
    exists j :: start <= j < end && src[j].focusId.Some? && src[j].focusId == focus
  }

  /** A node's listeners have been taken and everything else is as it was. */
  ghost predicate TakenFrom(src: seq<DispatchNode>, after: seq<DispatchNode>, start: nat, end: nat) {
    && |after| == |src|
    && forall j :: 0 <= j < |src| ==> after[j] == if start <= j < end then Emptied(src[j]) else src[j]
  }

  lemma TakeNext(src: seq<DispatchNode>, after: seq<DispatchNode>, start: nat, i: nat)
    requires start <= i < |src| && TakenFrom(src, after, start, i)
    ensures after[i] == src[i]
    ensures TakenFrom(src, after[i := Emptied(src[i])], start, i + 1)
  {
  }

  lemma FocusNext(src: seq<DispatchNode>, start: nat, i: nat, focus: Option<nat>)
    requires start <= i < |src|
    ensures FocusIn(src, start, i + 1, focus) <==>
            FocusIn(src, start, i, focus) || (src[i].focusId.Some? && src[i].focusId == focus)
  {
  }

  /** The loop invariant of the reuse, after the source nodes before `i`. */
  ghost predicate Reusing(src: seq<DispatchNode>, start: nat, i: nat, before: seq<DispatchNode>, outer: seq<nat>,
                          focus: Option<nat>, sourceNodes: seq<DispatchNode>, nodes: seq<DispatchNode>,
                          nodeStack: seq<nat>, sourceStack: seq<nat>, containsFocus: bool)
  {
    && start <= i <= |src|
    && ParentsPrecede(before) && (LastOf(outer).Some? ==> LastOf(outer).value < |before|)
    && TakenFrom(src, sourceNodes, start, i)
    && ChainOf(sourceStack) == SourceStack(src, start, i)
    && nodes == Moved(src, start, i, before, LastOf(outer))
    && Stacked(nodeStack, outer, sourceStack, start, |before|)
    && (containsFocus <==> FocusIn(src, start, i, focus))
  }

  lemma ReuseStarts(src: seq<DispatchNode>, start: nat, nodes: seq<DispatchNode>, nodeStack: seq<nat>,
                    contexts: seq<KeyContext>, views: seq<nat>, focus: Option<nat>)
    requires start <= |src| && Settled(nodes, nodeStack, contexts, views)
    ensures Reusing(src, start, start, nodes, nodeStack, focus, src, nodes, nodeStack, [], false)
  {
  }

  /** The nodes of the range, as far as they exist, have lost their listeners; everything else is as it was. */
  ghost predicate Surrendered(src: seq<DispatchNode>, after: seq<DispatchNode>, range: Range) {
    |after| == |src| &&
    forall j :: 0 <= j < |src| ==>
      && after[j].context == src[j].context && after[j].focusId == src[j].focusId
      && after[j].viewId == src[j].viewId && after[j].parent == src[j].parent
      && after[j].keyListeners == (if range.start <= j < range.end then [] else src[j].keyListeners)
      && after[j].actionListeners == (if range.start <= j < range.end then [] else src[j].actionListeners)
      && after[j].modifiersListeners == (if range.start <= j < range.end then [] else src[j].modifiersListeners)
  }

  /** The node has a copy at its place in the new range, with its listeners, context and focus id. */
  ghost predicate CopiedAt(src: seq<DispatchNode>, after: seq<DispatchNode>, start: nat, base: nat, j: nat) {
    && start <= j < |src| && base + (j - start) < |after|
    && var copy := after[base + (j - start)];
    && copy.keyListeners == src[j].keyListeners && copy.actionListeners == src[j].actionListeners
    && copy.modifiersListeners == src[j].modifiersListeners
    && copy.context == src[j].context && copy.focusId == src[j].focusId
  }

  /** Behind the nodes there were, the nodes of the range that exist are copied in order, and nothing else is added. */
  ghost predicate CopiedBehind(src: seq<DispatchNode>, range: Range, before: seq<DispatchNode>,
                               after: seq<DispatchNode>)
  {
    && before <= after
    && (forall j: nat :: range.start <= j < range.end && j < |src| ==>
          CopiedAt(src, after, range.start, |before|, j))
    && |after| - |before| == if range.start >= range.end || range.start >= |src| then 0
                             else if range.end <= |src| then range.end - range.start
                             else |src| - range.start
  }

  lemma MovedIsCopied(src: seq<DispatchNode>, start: nat, end: nat, before: seq<DispatchNode>, active: Option<nat>,
                      j: nat)
    requires start <= j < end <= |src| && ParentsPrecede(before) && (active.Some? ==> active.value < |before|)
    ensures CopiedAt(src, Moved(src, start, end, before, active), start, |before|, j)
  {
    MovedCarriesOver(src, start, end, before, active, j);
  }

  ghost predicate AllCopied(src: seq<DispatchNode>, after: seq<DispatchNode>, start: nat, end: nat, base: nat) {
    forall j: nat :: start <= j < end ==> CopiedAt(src, after, start, base, j)
  }

  lemma AllMovedAreCopied(src: seq<DispatchNode>, start: nat, end: nat, before: seq<DispatchNode>,
                          active: Option<nat>, after: seq<DispatchNode>)
    requires start <= end <= |src| && ParentsPrecede(before) && (active.Some? ==> active.value < |before|)
    requires after == Moved(src, start, end, before, active)
    ensures AllCopied(src, after, start, end, |before|)
  {
    forall j: nat | start <= j < end ensures CopiedAt(src, after, start, |before|, j) {
      MovedIsCopied(src, start, end, before, active, j);
    }
  }

  /** What is left of a range below `n`: how much, and where it starts if anything is. */
  lemma BelowExtent(range: Range, n: nat)
    ensures var r := range.Below(n);
            && r.end - r.start == (if range.start >= range.end || range.start >= n then 0
                                   else if range.end <= n then range.end - range.start
                                   else n - range.start)
            && (r.start < r.end ==> r.start == range.start)
  {
  }

  lemma SurrendersRange(src: seq<DispatchNode>, after: seq<DispatchNode>, range: Range)
    requires TakenFrom(src, after, range.Below(|src|).start, range.Below(|src|).end)
    ensures Surrendered(src, after, range)
  {
    var r := range.Below(|src|);
    assert forall j: nat :: r.Has(j) <==> range.Has(j) && j < |src|;
  }

  lemma CopiesRange(src: seq<DispatchNode>, range: Range, r: Range, before: seq<DispatchNode>,
                    after: seq<DispatchNode>)
    requires r == range.Below(|src|) && before <= after && |after| == |before| + (r.end - r.start)
    requires AllCopied(src, after, r.start, r.end, |before|)
    ensures CopiedBehind(src, range, before, after)
  {
    BelowExtent(range, |src|);
    forall j: nat | range.start <= j < range.end && j < |src|
      ensures CopiedAt(src, after, range.start, |before|, j)
    {
      assert r.Has(j);
    }
  }

  /** What moving the part of the range that exists comes to. */
  lemma ReuseIsExact(src: seq<DispatchNode>, range: Range, before: seq<DispatchNode>, outer: seq<nat>,
                     focus: Option<nat>, sourceNodes: seq<DispatchNode>, nodes: seq<DispatchNode>, nodeStack: seq<nat>,
                     sourceStack: seq<nat>, containsFocus: bool)
    requires Reusing(src, range.Below(|src|).start, range.Below(|src|).end, before, outer, focus, sourceNodes, nodes,
                     nodeStack, sourceStack, containsFocus)
    ensures Surrendered(src, sourceNodes, range) && CopiedBehind(src, range, before, nodes)
    ensures containsFocus <==> focus.Some? && exists j :: && range.start <= j < range.end && j < |src|
                                                          && src[j].focusId == focus
  {
    var r := range.Below(|src|);
    SurrendersRange(src, sourceNodes, range);
    AllMovedAreCopied(src, r.start, r.end, before, LastOf(outer), nodes);
    CopiesRange(src, range, r, before, nodes);
    assert forall j: nat :: r.Has(j) <==> range.Has(j) && j < |src|;
  }

  class DispatchTree {
    var nodeStack: seq<nat>
    var contextStack: seq<KeyContext>
    var viewStack: seq<nat>
    var nodes: seq<DispatchNode>
    var focusableNodeIds: map<nat, nat>
    var viewNodeIds: map<nat, nat>

    ghost predicate Valid()
      reads this
    {
      && Settled(nodes, nodeStack, contextStack, viewStack)
      && FocusLookupOk(nodes, focusableNodeIds)
      && ViewLookupOk(nodes, viewNodeIds)
    }

    constructor ()
      ensures Valid() && nodes == [] && nodeStack == []
    {
      nodeStack, contextStack, viewStack, nodes := [], [], [], [];
      focusableNodeIds, viewNodeIds := map[], map[];
    }

    method Clear()
      modifies this
      ensures Valid() && nodes == [] && nodeStack == []
    {
      nodeStack, contextStack, viewStack, nodes := [], [], [], [];
      focusableNodeIds, viewNodeIds := map[], map[];
    }

    method PushNode() returns (nodeId: nat)
      requires Valid()
      modifies this`nodes, this`nodeStack
      ensures Valid()
      ensures nodeId == |old(nodes)| && nodes == old(nodes) + [FreshNode(LastOf(old(nodeStack)))]
      ensures nodes[nodeId] == DispatchNode([], [], [], None, None, None, LastOf(old(nodeStack)))
      ensures Extends(old(nodeStack), nodeStack, nodeId)
    {
      var parent := LastOf(nodeStack);
      nodeId := |nodes|;
      AppendSettles(nodes, nodeStack, contextStack, viewStack, FreshNode(parent));
      nodes := nodes + [FreshNode(parent)];
      nodeStack := nodeStack + [nodeId];
    }

    method PopNode()
      requires Valid() && nodeStack != []
      modifies this`nodeStack, this`contextStack, this`viewStack
      ensures Valid() && nodeStack == old(nodeStack)[..|old(nodeStack)| - 1]
    {
      var n := nodeStack[|nodeStack| - 1];
      ghost var rest := nodeStack[..|nodeStack| - 1];
      ChainPops(nodes, nodeStack);
      assert nodeStack == rest + [n];
      ProjectionsPush(nodes, rest, n);
      var node := nodes[n];
      if node.context.Some? {
        contextStack := contextStack[..|contextStack| - 1];
      }
      if node.viewId.Some? {
        viewStack := viewStack[..|viewStack| - 1];
      }
      nodeStack := nodeStack[..|nodeStack| - 1];
    }

    /** Whichever way it goes, the stacks end up as those of the path to the node. */
    method SetActiveNode(nodeId: nat)
      requires Valid() && nodeId < |nodes|
      modifies this`nodeStack, this`contextStack, this`viewStack
      ensures Valid() && nodeStack == Path(nodes, nodeId)
    {
      var nextNodeParent := nodes[nodeId].parent;
      while LastOf(nodeStack) != nextNodeParent && nodeStack != []
        invariant Valid()
        decreases |nodeStack|
      {
        PopNode();
      }
      if LastOf(nodeStack) == nextNodeParent {
        PushSettles(nodes, nodeStack, contextStack, viewStack, nodeId);
        nodeStack := nodeStack + [nodeId];
        var activeNode := nodes[nodeId];
        viewStack := Push(viewStack, activeNode.viewId);
        contextStack := Push(contextStack, activeNode.context);
      } else {
        RebuildStacks(nodeId);
      }
    }

    /** Pushes the node and its ancestors, innermost first. */
    method ClimbToRoot(nodeId: nat)
      requires ParentsPrecede(nodes) && nodeId < |nodes| && InRange(nodes, Path(nodes, nodeId))
      requires nodeStack == [] && contextStack == [] && viewStack == []
      modifies this`nodeStack, this`contextStack, this`viewStack
      ensures Climbing(nodes, None, nodeStack, contextStack, viewStack, Path(nodes, nodeId))
    {
      var currentNodeId: Option<nat> := Some(nodeId);
      ghost var whole := Path(nodes, nodeId);
      ClimbStart(nodes, nodeId);
      while currentNodeId.Some?
        invariant Climbing(nodes, currentNodeId, nodeStack, contextStack, viewStack, whole)
        decreases if currentNodeId.Some? then currentNodeId.value + 1 else 0
      {
        var id := currentNodeId.value;
        var node := nodes[id];
        ClimbStep(nodes, id, nodeStack, contextStack, viewStack, whole);
        contextStack := Push(contextStack, node.context);
        viewStack := Push(viewStack, node.viewId);
        nodeStack := nodeStack + [id];
        currentNodeId := node.parent;
      }
    }

    /** Walks from the node to the root, pushing, and then reverses the three stacks. */
    method RebuildStacks(nodeId: nat)
      requires Valid() && nodeId < |nodes| && nodeStack == []
      modifies this`nodeStack, this`contextStack, this`viewStack
      ensures Valid() && nodeStack == Path(nodes, nodeId)
    {
      PathInRange(nodes, nodeId);
      ClimbToRoot(nodeId);
      ClimbEnd(nodes, nodeId, nodeStack, contextStack, viewStack);
      nodeStack, contextStack, viewStack := Reverse(nodeStack), Reverse(contextStack), Reverse(viewStack);
    }

    /** Recording a context a second time on a node leaves the context stack one entry too long. */
    method SetKeyContext(context: KeyContext)
      requires Valid() && nodeStack != []
      modifies this`nodes, this`contextStack
      ensures var n := nodeStack[|nodeStack| - 1];
              && nodes == old(nodes)[n := old(nodes)[n].(context := Some(context))]
              && contextStack == old(contextStack) + [context]
              && (Valid() <==> old(nodes)[n].context.None?)
    {
      var n := nodeStack[|nodeStack| - 1];
      SetContextSettles(nodes, nodeStack, contextStack, viewStack, context);
      nodes := nodes[n := nodes[n].(context := Some(context))];
      contextStack := contextStack + [context];
    }

    method SetFocusId(focusId: nat)
      requires Valid() && nodeStack != []
      modifies this`nodes, this`focusableNodeIds
      ensures var n := nodeStack[|nodeStack| - 1];
              && nodes == old(nodes)[n := old(nodes)[n].(focusId := Some(focusId))]
              && focusableNodeIds == old(focusableNodeIds)[focusId := n]
              && (Valid() <==> forall f :: f in old(focusableNodeIds) && old(focusableNodeIds)[f] == n ==> f == focusId)
    {
      var n := nodeStack[|nodeStack| - 1];
      SetOtherSettles(nodes, nodeStack, contextStack, viewStack, nodes[n].(focusId := Some(focusId)));
      FocusRecorded(nodes, focusableNodeIds, viewNodeIds, n, focusId);
      nodes := nodes[n := nodes[n].(focusId := Some(focusId))];
      focusableNodeIds := focusableNodeIds[focusId := n];
    }

    /** A view equal to the enclosing one is not recorded; otherwise recording keeps the stacks
        in step exactly when the node had no view. */
    method SetViewId(viewId: nat)
      requires Valid() && nodeStack != []
      modifies this`nodes, this`viewStack, this`viewNodeIds
      ensures var n := nodeStack[|nodeStack| - 1];
              if LastOf(old(viewStack)) == Some(viewId) then
                nodes == old(nodes) && viewStack == old(viewStack) && viewNodeIds == old(viewNodeIds) && Valid()
              else
                && nodes == old(nodes)[n := old(nodes)[n].(viewId := Some(viewId))]
                && viewStack == old(viewStack) + [viewId]
                && viewNodeIds == old(viewNodeIds)[viewId := n]
                && (Valid() <==> old(nodes)[n].viewId.None?)
    {
      if LastOf(viewStack) != Some(viewId) {
        var n := nodeStack[|nodeStack| - 1];
        SetViewSettles(nodes, nodeStack, contextStack, viewStack, viewId);
        nodes := nodes[n := nodes[n].(viewId := Some(viewId))];
        viewNodeIds := viewNodeIds[viewId := n];
        viewStack := viewStack + [viewId];
      }
    }

    method CarryContext(context: Option<KeyContext>)
      requires Valid() && nodeStack != [] && nodes[nodeStack[|nodeStack| - 1]].context.None?
      modifies this`nodes, this`contextStack
      ensures Valid()
      ensures var n := nodeStack[|nodeStack| - 1]; nodes == old(nodes)[n := old(nodes)[n].(context := context)]
    {
      if context.Some? {
        SetKeyContext(context.value);
      }
    }

    method CarryFocusId(focusId: Option<nat>)
      requires Valid() && nodeStack != [] && nodes[nodeStack[|nodeStack| - 1]].focusId.None?
      modifies this`nodes, this`focusableNodeIds
      ensures Valid()
      ensures var n := nodeStack[|nodeStack| - 1];
              && nodes == old(nodes)[n := old(nodes)[n].(focusId := focusId)]
              && focusableNodeIds == Register(old(focusableNodeIds), focusId, n)
    {
      if focusId.Some? {
        SetFocusId(focusId.value);
      }
    }

    method CarryViewId(viewId: Option<nat>)
      requires Valid() && nodeStack != [] && nodes[nodeStack[|nodeStack| - 1]].viewId.None?
      modifies this`nodes, this`viewStack, this`viewNodeIds
      ensures Valid()
      ensures var n := nodeStack[|nodeStack| - 1];
              && nodes == old(nodes)[n := old(nodes)[n].(viewId := if viewId == LastOf(old(viewStack)) then None
                                                                  else viewId)]
              && viewNodeIds == Register(old(viewNodeIds), nodes[n].viewId, n)
    {
      if viewId.Some? {
        SetViewId(viewId.value);
      }
    }

    method CarryListeners(source: DispatchNode)
      requires Valid() && nodeStack != []
      modifies this`nodes
      ensures Valid()
      ensures var n := nodeStack[|nodeStack| - 1];
              nodes == old(nodes)[n := old(nodes)[n].(keyListeners := source.keyListeners,
                                                      actionListeners := source.actionListeners,
                                                      modifiersListeners := source.modifiersListeners)]
    {
      var n := nodeStack[|nodeStack| - 1];
      var target := nodes[n].(keyListeners := source.keyListeners, actionListeners := source.actionListeners,
                              modifiersListeners := source.modifiersListeners);
      SetOtherSettles(nodes, nodeStack, contextStack, viewStack, target);
      nodes := nodes[n := target];
    }

    method PushWithContext(context: Option<KeyContext>)
      requires Valid()
      modifies this`nodes, this`nodeStack, this`contextStack
      ensures Valid() && Extends(old(nodeStack), nodeStack, |old(nodes)|)
      ensures nodes == old(nodes) + [FreshNode(LastOf(old(nodeStack))).(context := context)]
    {
      var id := PushNode();
      CarryContext(context);
    }

    method PushWithFocus(context: Option<KeyContext>, focusId: Option<nat>)
      requires Valid()
      modifies this`nodes, this`nodeStack, this`contextStack, this`focusableNodeIds
      ensures Valid() && Extends(old(nodeStack), nodeStack, |old(nodes)|)
      ensures nodes == old(nodes) + [FreshNode(LastOf(old(nodeStack))).(context := context, focusId := focusId)]
      ensures focusableNodeIds == Register(old(focusableNodeIds), focusId, |old(nodes)|)
    {
      PushWithContext(context);
      CarryFocusId(focusId);
    }

    /** Pushes a node with the context, the focus id and, unless it is the enclosing one, the view given. */
    method PushCarrying(context: Option<KeyContext>, focusId: Option<nat>, viewId: Option<nat>)
      requires Valid()
      modifies this
      ensures Valid() && Extends(old(nodeStack), nodeStack, |old(nodes)|)
      ensures nodes == old(nodes) + [FreshNode(LastOf(old(nodeStack))).(
                context := context, focusId := focusId,
                viewId := if viewId == LastOf(old(viewStack)) then None else viewId)]
      ensures focusableNodeIds == Register(old(focusableNodeIds), focusId, |old(nodes)|)
      ensures viewNodeIds == Register(old(viewNodeIds), nodes[|old(nodes)|].viewId, |old(nodes)|)
    {
      PushWithFocus(context, focusId);
      CarryViewId(viewId);
    }

    /** Pushes a node carrying what the source node carried; the source keeps everything but its listeners. */
    method MoveNode(source: DispatchNode) returns (taken: DispatchNode)
      requires Valid()
      modifies this
      ensures Valid() && taken == Emptied(source)
      ensures nodes == old(nodes) + [MovedNode(source, LastOf(old(nodeStack)), LastOf(old(viewStack)))]
      ensures Extends(old(nodeStack), nodeStack, |old(nodes)|)
      ensures focusableNodeIds == Register(old(focusableNodeIds), source.focusId, |old(nodes)|)
      ensures viewNodeIds == Register(old(viewNodeIds), nodes[|old(nodes)|].viewId, |old(nodes)|)
    {
      PushCarrying(source.context, source.focusId, source.viewId);
      CarryListeners(source);
      taken := Emptied(source);
    }

    /** Pops both stacks until the source stack is empty or ends in the parent. */
    method PopBoth(sourceStack: seq<nat>, parent: Option<nat>, ghost outer: seq<nat>, ghost start: nat, ghost base: nat)
      returns (rest: seq<nat>)
      requires Valid() && Stacked(nodeStack, outer, sourceStack, start, base)
      modifies this`nodeStack, this`contextStack, this`viewStack
      ensures Valid() && Stacked(nodeStack, outer, rest, start, base)
      ensures ChainOf(rest) == PopTo(ChainOf(sourceStack), parent)
    {
      rest := sourceStack;
      while rest != [] && parent != Some(rest[|rest| - 1])
        invariant Valid() && Stacked(nodeStack, outer, rest, start, base)
        invariant PopTo(ChainOf(rest), parent) == PopTo(ChainOf(sourceStack), parent)
        decreases |rest|
      {
        StackedPop(nodeStack, outer, rest, start, base);
        rest := rest[..|rest| - 1];
        PopNode();
      }
    }

    /** Unwinds to the parent's copy and moves one node below it. */
    method MoveBelow(i: nat, source: DispatchNode, sourceStack: seq<nat>, ghost outer: seq<nat>,
                     ghost src: seq<DispatchNode>, ghost start: nat, ghost before: seq<DispatchNode>)
      returns (newStack: seq<nat>, taken: DispatchNode)
      requires Valid()
      requires start <= i < |src| && source == src[i] && ChainOf(sourceStack) == SourceStack(src, start, i)
      requires ParentsPrecede(before) && (LastOf(outer).Some? ==> LastOf(outer).value < |before|)
      requires nodes == Moved(src, start, i, before, LastOf(outer))
      requires Stacked(nodeStack, outer, sourceStack, start, |before|)
      modifies this
      ensures Valid() && taken == Emptied(source) && ChainOf(newStack) == SourceStack(src, start, i + 1)
      ensures nodes == Moved(src, start, i + 1, before, LastOf(outer))
      ensures Stacked(nodeStack, outer, newStack, start, |before|)
      ensures |nodes| == |old(nodes)| + 1 && old(nodes) <= nodes
      ensures focusableNodeIds == Register(old(focusableNodeIds), nodes[|old(nodes)|].focusId, |old(nodes)|)
      ensures viewNodeIds == Register(old(viewNodeIds), nodes[|old(nodes)|].viewId, |old(nodes)|)
    {
      var rest := PopBoth(sourceStack, source.parent, outer, start, |before|);
      MovedStep(src, start, i, before, outer, rest, nodes, nodeStack, contextStack, viewStack);
      ghost var popped := nodeStack;
      taken := MoveNode(source);
      newStack := rest + [i];
      StackedPush(popped, outer, rest, start, |before|, i, nodeStack);
    }

    /** One turn of the reuse loop. */
    method MoveNext(i: nat, source: DispatchTree, focus: Option<nat>, sourceStack: seq<nat>, containsFocus: bool,
                    ghost src: seq<DispatchNode>, ghost start: nat, ghost before: seq<DispatchNode>,
                    ghost outer: seq<nat>, ghost focusWas: map<nat, nat>, ghost viewsWas: map<nat, nat>)
      returns (newStack: seq<nat>, nowContains: bool)
      requires Valid() && source != this && i < |src|
      requires |before| <= |nodes| && FocusesRegistered(nodes, |before|, focusWas, focusableNodeIds)
      requires ViewsRegistered(nodes, |before|, viewsWas, viewNodeIds)
      requires Reusing(src, start, i, before, outer, focus, source.nodes, nodes, nodeStack, sourceStack, containsFocus)
      modifies this, source`nodes
      ensures Valid()
      ensures Reusing(src, start, i + 1, before, outer, focus, source.nodes, nodes, nodeStack, newStack, nowContains)
      ensures |before| <= |nodes| && FocusesRegistered(nodes, |before|, focusWas, focusableNodeIds)
      ensures ViewsRegistered(nodes, |before|, viewsWas, viewNodeIds)
    {
      ghost var sofar, focusSofar, viewsSofar := nodes, focusableNodeIds, viewNodeIds;
      TakeNext(src, source.nodes, start, i);
      FocusNext(src, start, i, focus);
      var sourceNode := source.nodes[i];
      nowContains := containsFocus;
      if sourceNode.focusId.Some? && sourceNode.focusId == focus {
        nowContains := true;
      }
      var taken;
      newStack, taken := MoveBelow(i, sourceNode, sourceStack, outer, src, start, before);
      source.nodes := source.nodes[i := taken];
      assert nodes == sofar + [nodes[|sofar|]];
      RegistrationGrows(sofar, nodes[|sofar|], |before|, focusWas, focusSofar, viewsWas, viewsSofar);
    }

    method MoveRange(oldRange: Range, source: DispatchTree, focus: Option<nat>)
      returns (sourceStack: seq<nat>, containsFocus: bool)
      requires Valid() && source != this
      requires oldRange.start <= oldRange.end <= |source.nodes|
      modifies this, source`nodes
      ensures Valid()
      ensures Reusing(old(source.nodes), oldRange.start, oldRange.end, old(nodes), old(nodeStack), focus, source.nodes,
                      nodes, nodeStack, sourceStack, containsFocus)
      ensures FocusesRegistered(nodes, |old(nodes)|, old(focusableNodeIds), focusableNodeIds)
      ensures ViewsRegistered(nodes, |old(nodes)|, old(viewNodeIds), viewNodeIds)
    {
      containsFocus, sourceStack := false, [];
      ghost var src, start, before, outer := source.nodes, oldRange.start, nodes, nodeStack;
      ReuseStarts(src, start, nodes, nodeStack, contextStack, viewStack, focus);
      for i := oldRange.start to oldRange.end
        invariant Valid()
        invariant Reusing(src, start, i, before, outer, focus, source.nodes, nodes, nodeStack, sourceStack,
                          containsFocus)
        invariant |before| <= |nodes| && FocusesRegistered(nodes, |before|, old(focusableNodeIds), focusableNodeIds)
        invariant ViewsRegistered(nodes, |before|, old(viewNodeIds), viewNodeIds)
      {
        sourceStack, containsFocus := MoveNext(i, source, focus, sourceStack, containsFocus, src, start, before, outer,
                                               old(focusableNodeIds), old(viewNodeIds));
      }
    }

    /** Pops what is left of the source stack. */
    method Unwind(sourceStack: seq<nat>, ghost outer: seq<nat>, ghost start: nat, ghost base: nat)
      requires Valid() && Stacked(nodeStack, outer, sourceStack, start, base)
      modifies this`nodeStack, this`contextStack, this`viewStack
      ensures Valid() && nodeStack == outer
    {
      var rest := sourceStack;
      while rest != []
        invariant Valid() && Stacked(nodeStack, outer, rest, start, base)
        decreases |rest|
      {
        StackedPop(nodeStack, outer, rest, start, base);
        rest := rest[..|rest| - 1];
        PopNode();
      }
      StackedTop(nodeStack, outer, rest, start, base);
    }

    /** Appends a copy of the range below the active node and takes its listeners from the source. Of a range that
        goes past the last source node only the part that exists is copied, but the new range is as long as the old. */
    method ReuseSubtree(oldRange: Range, source: DispatchTree, focus: Option<nat>) returns (reused: ReusedSubtree)
      requires Valid() && source != this
      modifies this, source`nodes
      ensures Valid()
      ensures var r := oldRange.Below(|old(source.nodes)|);
              nodes == Moved(old(source.nodes), r.start, r.end, old(nodes), LastOf(old(nodeStack)))
      ensures Surrendered(old(source.nodes), source.nodes, oldRange)
      ensures CopiedBehind(old(source.nodes), oldRange, old(nodes), nodes)
      ensures reused.containsFocus
         <==> focus.Some? && exists j :: && oldRange.start <= j < oldRange.end && j < |old(source.nodes)|
                                         && old(source.nodes)[j].focusId == focus
      ensures FocusesRegistered(nodes, |old(nodes)|, old(focusableNodeIds), focusableNodeIds)
      ensures ViewsRegistered(nodes, |old(nodes)|, old(viewNodeIds), viewNodeIds)
      ensures nodeStack == old(nodeStack) && contextStack == old(contextStack) && viewStack == old(viewStack)
      ensures reused.oldRange == oldRange
      ensures reused.newRange.start == |old(nodes)|
      ensures reused.newRange.end == |old(nodes)| + if oldRange.start < oldRange.end then oldRange.end - oldRange.start
                                                    else 0
      ensures reused.newRange.end == |nodes| <==> oldRange.start >= oldRange.end || oldRange.end <= |source.nodes|
    {
      var newRange := Range(|nodes|, |nodes| + oldRange.Length());
      var existing := oldRange.Below(|source.nodes|);
      ghost var start, before, outer := existing.start, nodes, nodeStack;
      var sourceStack, containsFocus := MoveRange(existing, source, focus);
      ReuseIsExact(old(source.nodes), oldRange, before, outer, focus, source.nodes, nodes, nodeStack, sourceStack,
                   containsFocus);
      Unwind(sourceStack, outer, start, |before|);
      ProjectionsStable(before, nodes, outer);
      reused := ReusedSubtree(oldRange, newRange, containsFocus);
    }

    /** Forgets the ids registered by the nodes from `index` on. */
    method ForgetFrom(index: nat)
      requires index <= |nodes|
      modifies this`focusableNodeIds, this`viewNodeIds
      ensures Forgotten(nodes, index, |nodes|, old(focusableNodeIds), focusableNodeIds, old(viewNodeIds), viewNodeIds)
    {
      for n := index to |nodes|
        invariant Forgotten(nodes, index, n, old(focusableNodeIds), focusableNodeIds, old(viewNodeIds), viewNodeIds)
      {
        if nodes[n].focusId.Some? {
          focusableNodeIds := focusableNodeIds - {nodes[n].focusId.value};
        }
        if nodes[n].viewId.Some? {
          viewNodeIds := viewNodeIds - {nodes[n].viewId.value};
        }
      }
    }

    /** Drops the nodes from `index` on and the ids they registered. The stacks stay in step
        exactly when no dropped node is on the node stack. */
    method Truncate(index: nat)
      requires Valid() && index <= |nodes|
      modifies this`nodes, this`focusableNodeIds, this`viewNodeIds
      ensures nodes == old(nodes)[..index]
      ensures Forgotten(old(nodes), index, |old(nodes)|, old(focusableNodeIds), focusableNodeIds, old(viewNodeIds),
                        viewNodeIds)
      ensures forall f: nat :: f in focusableNodeIds
                          <==> f in old(focusableNodeIds) && !old(CarriesFocus(nodes, index, f))
      ensures forall v: nat :: v in viewNodeIds <==> v in old(viewNodeIds) && !old(CarriesView(nodes, index, v))
      ensures Valid() <==> forall k :: 0 <= k < |nodeStack| ==> nodeStack[k] < index
    {
      ForgetFrom(index);
      TruncationSettles(nodes, nodeStack, contextStack, viewStack, index);
      ForgottenLookups(nodes, index, old(focusableNodeIds), focusableNodeIds, old(viewNodeIds), viewNodeIds);
      nodes := nodes[..index];
    }

    /** The path from the root to the target, or the target alone if there is no such node. */
    method DispatchPath(target: nat) returns (path: seq<nat>)
      requires ParentsPrecede(nodes)
      ensures path == if target < |nodes| then Path(nodes, target) else [target]
    {
      path := [];
      var current: Option<nat> := Some(target);
      while current.Some?
        invariant target >= |nodes| && current.Some? ==> current.value == target && path == []
        invariant target < |nodes| ==>
                    if current.Some? then current.value < |nodes|
                                          && Path(nodes, target) == Path(nodes, current.value) + Reverse(path)
                    else Path(nodes, target) == Reverse(path)
        invariant target >= |nodes| && current.None? ==> Reverse(path) == [target]
        decreases if current.Some? then current.value + 1 else 0
      {
        var nodeId := current.value;
        var before := path;
        path := path + [nodeId];
        assert Reverse(path) == [nodeId] + Reverse(before);
        if nodeId < |nodes| {
          current := nodes[nodeId].parent;
          if current.Some? {
            assert Path(nodes, nodeId) + Reverse(before) == Path(nodes, current.value) + Reverse(path);
          }
        } else {
          assert path == [target] && Reverse(path) == [target];
          current := None;
        }
      }
      path := Reverse(path);
    }

    /** A focus contains another if they are the same or its node is on the path to the other's. */
    method FocusContains(parent: nat, child: nat) returns (r: bool)
      requires ParentsPrecede(nodes) && FocusLookupOk(nodes, focusableNodeIds)
      ensures r <==> parent == child ||
                     (&& parent in focusableNodeIds && child in focusableNodeIds
                      && focusableNodeIds[parent] in Path(nodes, focusableNodeIds[child]))
    {
      if parent == child {
        return true;
      }
      if parent in focusableNodeIds {
        var parentNodeId := focusableNodeIds[parent];
        var current: Option<nat> := if child in focusableNodeIds then Some(focusableNodeIds[child]) else None;
        while current.Some?
          invariant current.Some? ==> child in focusableNodeIds && current.value < |nodes|
          invariant child in focusableNodeIds ==>
                      (parentNodeId in Path(nodes, focusableNodeIds[child]) <==>
                       current.Some? && parentNodeId in Path(nodes, current.value))
          decreases if current.Some? then current.value + 1 else 0
        {
          var nodeId := current.value;
          if nodeId == parentNodeId {
            return true;
          }
          current := nodes[nodeId].parent;
        }
      }
      return false;
    }
  }

  ghost predicate NoFocus(nodes: seq<DispatchNode>, lo: nat, hi: nat, f: nat)
    requires hi <= |nodes|
  {
    forall n :: lo <= n < hi ==> nodes[n].focusId != Some(f)
  }

  ghost predicate NoView(nodes: seq<DispatchNode>, lo: nat, hi: nat, v: nat)
    requires hi <= |nodes|
  {
    forall n :: lo <= n < hi ==> nodes[n].viewId != Some(v)
  }

  /** Exactly the ids that nodes from `lo` to before `hi` carry are gone from the lookups. */
  ghost predicate Forgotten(nodes: seq<DispatchNode>, lo: nat, hi: nat, focusable: map<nat, nat>,
                            focusable': map<nat, nat>,
                            views: map<nat, nat>, views': map<nat, nat>)
    requires hi <= |nodes|
  {
    && (forall f :: f in focusable' <==> f in focusable && NoFocus(nodes, lo, hi, f))
    && (forall f :: f in focusable' ==> focusable'[f] == focusable[f])
    && (forall v :: v in views' <==> v in views && NoView(nodes, lo, hi, v))
    && (forall v :: v in views' ==> views'[v] == views[v])
  }

  lemma ForgottenLookups(nodes: seq<DispatchNode>, index: nat, focusable: map<nat, nat>, focusable': map<nat, nat>,
                         views: map<nat, nat>, views': map<nat, nat>)
    requires index <= |nodes| && FocusLookupOk(nodes, focusable) && ViewLookupOk(nodes, views)
    requires Forgotten(nodes, index, |nodes|, focusable, focusable', views, views')
    ensures FocusLookupOk(nodes[..index], focusable') && ViewLookupOk(nodes[..index], views')
  {
  }

  lemma TruncationSettles(nodes: seq<DispatchNode>, stack: seq<nat>, contexts: seq<KeyContext>, views: seq<nat>,
                          index: nat)
    requires Settled(nodes, stack, contexts, views) && index <= |nodes|
    ensures Settled(nodes[..index], stack, contexts, views) <==> forall k :: 0 <= k < |stack| ==> stack[k] < index
  {
    var after := nodes[..index];
    assert ParentsPrecede(after);
    if forall k :: 0 <= k < |stack| ==> stack[k] < index {
      if stack != [] {
        PathStable(after, nodes, stack[|stack| - 1]);
      }
      ProjectionsStable(after, nodes, stack);
    }
  }

  // ----- what reuse keeps -----

  /** Each moved node carries its source's listeners, context and focus id, and hangs where the loop found. */
  lemma {:induction false} MovedCarriesOver(src: seq<DispatchNode>, start: nat, end: nat, before: seq<DispatchNode>,
                                            active: Option<nat>, j: nat)
    requires start <= j < end <= |src| && ParentsPrecede(before) && (active.Some? ==> active.value < |before|)
    ensures var node := Moved(src, start, end, before, active)[|before| + (j - start)];
            && node.keyListeners == src[j].keyListeners
            && node.actionListeners == src[j].actionListeners
            && node.modifiersListeners == src[j].modifiersListeners
            && node.context == src[j].context
            && node.focusId == src[j].focusId
            && node.parent == NewParent(src, start, j, |before|, active)
  {
    if j < end - 1 {
      MovedCarriesOver(src, start, end - 1, before, active, j);
      assert Moved(src, start, end - 1, before, active) <= Moved(src, start, end, before, active);
    }
  }

  /** A moved node is drawn in its source's own view or, without one, where its new parent is drawn, and records a view
      exactly when it is not that of the new parent. */
  lemma {:induction false} MovedView(src: seq<DispatchNode>, start: nat, end: nat, before: seq<DispatchNode>,
                                     active: Option<nat>, j: nat)
    requires start <= j < end <= |src| && ParentsPrecede(before) && (active.Some? ==> active.value < |before|)
    ensures var after := Moved(src, start, end, before, active);
            EffectiveView(after, Some(|before| + (j - start))) ==
            if src[j].viewId.Some? then src[j].viewId
            else EffectiveView(after, NewParent(src, start, j, |before|, active))
    ensures var after := Moved(src, start, end, before, active);
            after[|before| + (j - start)].viewId ==
            if src[j].viewId == EffectiveView(after, NewParent(src, start, j, |before|, active)) then None
            else src[j].viewId
  {
    var after := Moved(src, start, end, before, active);
    var sofar := Moved(src, start, end - 1, before, active);
    var parent := NewParent(src, start, j, |before|, active);
    ViewStable(sofar, after, parent);
    if j < end - 1 {
      MovedView(src, start, end - 1, before, active, j);
      ViewStable(sofar, after, Some(|before| + (j - start)));
    } else {
      assert after[|before| + (j - start)] == MovedNode(src[j], parent, EffectiveView(sofar, parent));
    }
  }

  lemma {:induction false} ViewStable(nodes: seq<DispatchNode>, nodes': seq<DispatchNode>, n: Option<nat>)
    requires ParentsPrecede(nodes) && ParentsPrecede(nodes') && nodes <= nodes'
    requires n.Some? ==> n.value < |nodes|
    ensures EffectiveView(nodes', n) == EffectiveView(nodes, n)
    decreases if n.Some? then n.value + 1 else 0
  {
    if n.Some? && nodes[n.value].viewId.None? {
      ViewStable(nodes, nodes', nodes[n.value].parent);
    }
  }

  /** `j` and its ancestors within the range. */
  ghost function LocalPath(src: seq<DispatchNode>, start: nat, j: nat): Chain
    requires ParentsPrecede(src) && start <= j < |src|
  {
    Link(j, if HasLocalParent(src, start, j) then LocalPath(src, start, src[j].parent.value) else Empty)
  }

  ghost predicate HasLocalParent(src: seq<DispatchNode>, start: nat, j: nat)
    requires j < |src|
  {
    src[j].parent.Some? && start <= src[j].parent.value
  }

  /** `j` comes in preorder: its parent, if it lies in the range, is the node before or one of its ancestors. */
  ghost predicate InPreorder(src: seq<DispatchNode>, start: nat, j: nat)
    requires ParentsPrecede(src) && start <= j < |src|
  {
    HasLocalParent(src, start, j) ==> LocalPath(src, start, j - 1).Has(src[j].parent.value)
  }

  /** The source parent shifted like the node ids, or the active node for a root of the range. */
  ghost function ShiftedParent(src: seq<DispatchNode>, start: nat, j: nat, base: nat, active: Option<nat>): Option<nat>
    requires j < |src|
  {
    if HasLocalParent(src, start, j) then Some(base + (src[j].parent.value - start)) else active
  }

  /** Cutting the local path of `m` at a node on it leaves the local path of that node. */
  lemma {:induction false} CutOnPath(src: seq<DispatchNode>, start: nat, m: nat, p: nat)
    requires ParentsPrecede(src) && start <= m < |src| && LocalPath(src, start, m).Has(p)
    ensures start <= p <= m && PopTo(LocalPath(src, start, m), Some(p)) == LocalPath(src, start, p)
  {
    if m != p {
      CutOnPath(src, start, src[m].parent.value, p);
    }
  }

  lemma {:induction false} CutMisses(stack: Chain, parent: Option<nat>)
    requires parent.Some? ==> !stack.Has(parent.value)
    ensures PopTo(stack, parent) == Empty
  {
    if stack.Link? {
      CutMisses(stack.below, parent);
    }
  }

  lemma {:induction false} LocalPathWithin(src: seq<DispatchNode>, start: nat, m: nat, n: nat)
    requires ParentsPrecede(src) && start <= m < |src| && LocalPath(src, start, m).Has(n)
    ensures start <= n <= m
  {
    if m != n {
      LocalPathWithin(src, start, src[m].parent.value, n);
    }
  }

  /** Cutting a local path at some node's parent gives that parent's own path if the parent is on it,
      and nothing otherwise. */
  lemma CutLocalPath(src: seq<DispatchNode>, start: nat, m: nat, parent: Option<nat>)
    requires ParentsPrecede(src) && start <= m < |src|
    ensures PopTo(LocalPath(src, start, m), parent) ==
            if parent.Some? && start <= parent.value <= m && LocalPath(src, start, m).Has(parent.value)
            then LocalPath(src, start, parent.value) else Empty
  {
    if parent.Some? && LocalPath(src, start, m).Has(parent.value) {
      CutOnPath(src, start, m, parent.value);
    } else {
      CutMisses(LocalPath(src, start, m), parent);
    }
  }

  /** While the range comes in preorder, the loop's own stack is the local path of the node just moved. */
  lemma {:induction false} StackIsLocalPath(src: seq<DispatchNode>, start: nat, i: nat)
    requires ParentsPrecede(src) && start <= i <= |src|
    requires forall j :: start <= j < i ==> InPreorder(src, start, j)
    ensures SourceStack(src, start, i) == if i == start then Empty else LocalPath(src, start, i - 1)
  {
    if i > start {
      var j := i - 1;
      StackIsLocalPath(src, start, j);
      assert InPreorder(src, start, j);
      if j > start {
        CutLocalPath(src, start, j - 1, src[j].parent);
      }
    }
  }

  /** One node, all earlier ones in preorder: its parent is shifted exactly when it comes in preorder too. */
  lemma ParentShiftedIff(src: seq<DispatchNode>, start: nat, j: nat, base: nat, active: Option<nat>)
    requires ParentsPrecede(src) && start <= j < |src| && (active.Some? ==> active.value < base)
    requires forall k :: start <= k < j ==> InPreorder(src, start, k)
    ensures NewParent(src, start, j, base, active) == ShiftedParent(src, start, j, base, active)
       <==> InPreorder(src, start, j)
  {
    StackIsLocalPath(src, start, j);
    if start < j {
      CutLocalPath(src, start, j - 1, src[j].parent);
    }
  }

  ghost predicate Shifts(src: seq<DispatchNode>, start: nat, j: nat, base: nat, active: Option<nat>)
    requires start <= j < |src| && (active.Some? ==> active.value < base)
  {
    NewParent(src, start, j, base, active) == ShiftedParent(src, start, j, base, active)
  }

  ghost predicate AllShift(src: seq<DispatchNode>, start: nat, end: nat, base: nat, active: Option<nat>)
    requires start <= end <= |src| && (active.Some? ==> active.value < base)
  {
    forall j :: start <= j < end ==> Shifts(src, start, j, base, active)
  }

  ghost predicate AllInPreorder(src: seq<DispatchNode>, start: nat, end: nat)
    requires ParentsPrecede(src) && start <= end <= |src|
  {
    forall j :: start <= j < end ==> InPreorder(src, start, j)
  }

  /** Reuse keeps the shape of the range, node for node, exactly when the range comes in preorder. */
  lemma ReuseKeepsShapeIff(src: seq<DispatchNode>, start: nat, end: nat, base: nat, active: Option<nat>)
    requires ParentsPrecede(src) && start <= end <= |src| && (active.Some? ==> active.value < base)
    ensures AllShift(src, start, end, base, active) <==> AllInPreorder(src, start, end)
    decreases end
  {
    if start < end {
      var j := end - 1;
      ReuseKeepsShapeIff(src, start, j, base, active);
      assert AllShift(src, start, end, base, active)
        <==> AllShift(src, start, j, base, active) && Shifts(src, start, j, base, active);
      assert AllInPreorder(src, start, end) <==> AllInPreorder(src, start, j) && InPreorder(src, start, j);
      if AllInPreorder(src, start, j) {
        ParentShiftedIff(src, start, j, base, active);
      }
    }
  }

  /** The copy of the source parent, or the active node for a root of the range. */
  ghost function RefreshedParent(src: seq<DispatchNode>, reused: ReusedSubtree, j: nat, active: Option<nat>)
    : Option<nat>
    requires ParentsPrecede(src) && reused.oldRange.start <= j < reused.oldRange.end <= |src|
  {
    if HasLocalParent(src, reused.oldRange.start, j) then Some(reused.RefreshNodeId(src[j].parent.value)) else active
  }

  ghost predicate ParentRefreshed(src: seq<DispatchNode>, after: seq<DispatchNode>, reused: ReusedSubtree, j: nat,
                                  active: Option<nat>)
    requires ParentsPrecede(src) && reused.oldRange.start <= j < reused.oldRange.end <= |src|
  {
    var copy := reused.RefreshNodeId(j);
    copy < |after| && after[copy].parent == RefreshedParent(src, reused, j, active)
  }

  /** The copy of `j` hangs where the loop found. */
  ghost predicate Hangs(src: seq<DispatchNode>, after: seq<DispatchNode>, start: nat, j: nat, base: nat,
                        active: Option<nat>)
    requires start <= j < |src| && (active.Some? ==> active.value < base)
  {
    base + (j - start) < |after| && after[base + (j - start)].parent == NewParent(src, start, j, base, active)
  }

  lemma MovedHangs(src: seq<DispatchNode>, start: nat, end: nat, before: seq<DispatchNode>, active: Option<nat>)
    requires start <= end <= |src| && ParentsPrecede(before) && (active.Some? ==> active.value < |before|)
    ensures forall j :: start <= j < end ==>
              Hangs(src, Moved(src, start, end, before, active), start, j, |before|, active)
  {
    forall j | start <= j < end
      ensures Hangs(src, Moved(src, start, end, before, active), start, j, |before|, active)
    {
      MovedCarriesOver(src, start, end, before, active, j);
    }
  }

  lemma RefreshedIffShifts(src: seq<DispatchNode>, after: seq<DispatchNode>, active: Option<nat>,
                           reused: ReusedSubtree, j: nat)
    requires ParentsPrecede(src) && reused.oldRange.start <= j < reused.oldRange.end <= |src|
    requires active.Some? ==> active.value < reused.newRange.start
    requires Hangs(src, after, reused.oldRange.start, j, reused.newRange.start, active)
    ensures ParentRefreshed(src, after, reused, j, active)
       <==> Shifts(src, reused.oldRange.start, j, reused.newRange.start, active)
  {
    assert reused.RefreshNodeId(j) == reused.newRange.start + (j - reused.oldRange.start);
  }

  ghost predicate AllRefreshed(src: seq<DispatchNode>, after: seq<DispatchNode>, reused: ReusedSubtree,
                               active: Option<nat>)
    requires ParentsPrecede(src) && reused.oldRange.end <= |src|
  {
    forall j :: reused.oldRange.start <= j < reused.oldRange.end ==> ParentRefreshed(src, after, reused, j, active)
  }

  lemma AllRefreshedIffShift(src: seq<DispatchNode>, after: seq<DispatchNode>, active: Option<nat>,
                             reused: ReusedSubtree)
    requires ParentsPrecede(src) && reused.oldRange.start <= reused.oldRange.end <= |src|
    requires active.Some? ==> active.value < reused.newRange.start
    requires forall j :: reused.oldRange.start <= j < reused.oldRange.end ==>
               Hangs(src, after, reused.oldRange.start, j, reused.newRange.start, active)
    ensures AllRefreshed(src, after, reused, active)
       <==> AllShift(src, reused.oldRange.start, reused.oldRange.end, reused.newRange.start, active)
  {
    forall j | reused.oldRange.start <= j < reused.oldRange.end
      ensures ParentRefreshed(src, after, reused, j, active)
         <==> Shifts(src, reused.oldRange.start, j, reused.newRange.start, active)
    {
      RefreshedIffShifts(src, after, active, reused, j);
    }
  }

  /** In the tree after the reuse every copy's parent is the copy of its source's parent, roots of the range hanging off
      the active node, exactly when the range comes in preorder. */
  lemma ReusedParentsIff(src: seq<DispatchNode>, before: seq<DispatchNode>, active: Option<nat>, reused: ReusedSubtree)
    requires ParentsPrecede(src) && reused.oldRange.start <= reused.oldRange.end <= |src|
    requires ParentsPrecede(before) && (active.Some? ==> active.value < |before|)
    requires reused.newRange.start == |before|
    ensures AllRefreshed(src, Moved(src, reused.oldRange.start, reused.oldRange.end, before, active), reused, active)
       <==> AllInPreorder(src, reused.oldRange.start, reused.oldRange.end)
  {
    var start, end := reused.oldRange.start, reused.oldRange.end;
    MovedHangs(src, start, end, before, active);
    AllRefreshedIffShift(src, Moved(src, start, end, before, active), active, reused);
    ReuseKeepsShapeIff(src, start, end, |before|, active);
  }

  /** The view nearest to `j` on its local path. */
  ghost function LocalView(src: seq<DispatchNode>, start: nat, j: nat): Option<nat>
    requires ParentsPrecede(src) && start <= j < |src|
  {
    if src[j].viewId.Some? then src[j].viewId
    else if HasLocalParent(src, start, j) then LocalView(src, start, src[j].parent.value)
    else None
  }

  /** Every moved node is drawn in the view it was drawn in within the range, or, if the range
      named none above it, in the view the range now hangs in. */
  lemma {:induction false} ReuseKeepsViews(src: seq<DispatchNode>, start: nat, end: nat, before: seq<DispatchNode>,
                                           active: Option<nat>, j: nat)
    requires ParentsPrecede(src) && start <= j < end <= |src|
    requires ParentsPrecede(before) && (active.Some? ==> active.value < |before|)
    requires forall k :: start <= k < end ==> InPreorder(src, start, k)
    ensures var after := Moved(src, start, end, before, active);
            EffectiveView(after, Some(|before| + (j - start))) ==
            if LocalView(src, start, j).Some? then LocalView(src, start, j) else EffectiveView(before, active)
  {
    var after := Moved(src, start, end, before, active);
    MovedView(src, start, end, before, active, j);
    ParentShiftedIff(src, start, j, |before|, active);
    if src[j].viewId.None? {
      if HasLocalParent(src, start, j) {
        ReuseKeepsViews(src, start, end, before, active, src[j].parent.value);
      } else {
        ViewStable(before, after, active);
      }
    }
  }
}

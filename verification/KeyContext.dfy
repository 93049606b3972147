/** Key contexts and the predicates that bindings place on a stack of them. */
module KeyContexts {
  import opened Wrappers

  datatype ContextEntry = ContextEntry(key: string, value: Option<string>)

  type KeyContext = seq<ContextEntry>

  predicate Contains(context: KeyContext, key: string) {
    exists k :: 0 <= k < |context| && context[k].key == key
  }

  /** The value of the first entry with the key. */
  function Get(context: KeyContext, key: string): Option<string> {
    if context == [] then None
    else if context[0].key == key then context[0].value
    else Get(context[1..], key)
  }

  datatype Predicate =
    | Identifier(name: string)
    | Equal(left: string, right: string)
    | NotEqual(left: string, right: string)
    | Descendant(parent: Predicate, child: Predicate)
    | Not(pred: Predicate)
    | And(first: Predicate, second: Predicate)
    | Or(first: Predicate, second: Predicate)

  /** Evaluation against the innermost of `contexts`; `all` is what a negation ranges over. */
  predicate EvalInner(p: Predicate, contexts: seq<KeyContext>, all: seq<KeyContext>)
    decreases p, 1, 0
  {
    contexts != [] &&
    var context := contexts[|contexts| - 1];
    match p
    case Identifier(name) => Contains(context, name)
    case Equal(left, right) => Get(context, left) == Some(right)
    case NotEqual(left, right) => Get(context, left) != Some(right)
    case Not(pred) => forall n :: 1 <= n <= |all| ==> !EvalInner(pred, all[..n], all)
    case Descendant(_, _) => EvalBelow(p, contexts, all, 0)
    case And(first, second) => EvalInner(first, contexts, all) && EvalInner(second, contexts, all)
    case Or(first, second) => EvalInner(first, contexts, all) || EvalInner(second, contexts, all)
  }

  /** Finds the outermost match of the parent from `i` on; the child is then evaluated on what lies
      below it, and only there. */
  predicate EvalBelow(p: Predicate, contexts: seq<KeyContext>, all: seq<KeyContext>, i: nat)
    requires p.Descendant? && i < |contexts|
    decreases p, 0, |contexts| - i
  {
    i < |contexts| - 1 &&
    if EvalInner(p.parent, contexts[..i + 1], all) then
      EvalInner(p.child, contexts[i + 1..], contexts[i + 1..])
    else
      EvalBelow(p, contexts, all, i + 1)
  }

  /** The deepest depth, up to `depth`, at which the predicate holds. */
  function DepthUpTo(p: Predicate, contexts: seq<KeyContext>, depth: nat): Option<nat>
    requires depth <= |contexts|
  {
    if EvalInner(p, contexts[..depth], contexts) then Some(depth)
    else if depth == 0 then None
    else DepthUpTo(p, contexts, depth - 1)
  }

  function DepthOf(p: Predicate, contexts: seq<KeyContext>): Option<nat> {
    DepthUpTo(p, contexts, |contexts|)
  }

  predicate IsSuperset(p: Predicate, other: Predicate)
    decreases p, other
  {
    p == other ||
    if p.Or? then IsSuperset(p.first, other) || IsSuperset(p.second, other)
    else
      match other
      case Descendant(_, child) => IsSuperset(p, child)
      case And(left, right) => IsSuperset(p, left) || IsSuperset(p, right)
      case _ => false
  }

  // ----- what evaluation means -----

  /** The first entry with the key has the value. */
  ghost predicate HasValue(context: KeyContext, key: string, value: string) {
    exists k :: && 0 <= k < |context| && context[k] == ContextEntry(key, Some(value))
                && forall j :: 0 <= j < k ==> context[j].key != key
  }

  lemma {:induction false} GetFindsFirst(context: KeyContext, key: string, value: string)
    ensures Get(context, key) == Some(value) <==> HasValue(context, key, value)
    decreases |context|
  {
    if context != [] {
      GetFindsFirst(context[1..], key, value);
      if context[0].key != key {
        if HasValue(context, key, value) {
          var k :| && 0 <= k < |context| && context[k] == ContextEntry(key, Some(value))
                   && forall j :: 0 <= j < k ==> context[j].key != key;
          assert context[1..][k - 1] == context[k];
          assert forall j :: 0 <= j < k - 1 ==> context[1..][j] == context[j + 1];
        }
        if HasValue(context[1..], key, value) {
          var k :| && 0 <= k < |context| - 1 && context[1..][k] == ContextEntry(key, Some(value))
                   && forall j :: 0 <= j < k ==> context[1..][j].key != key;
          assert context[k + 1] == context[1..][k];
          assert forall j :: 0 < j < k + 1 ==> context[j] == context[1..][j - 1];
        }
      }
    }
  }

  /** The parent matches at the first `i + 1` contexts and at no fewer, and the child matches on the rest alone. */
  ghost predicate MatchesBelow(parent: Predicate, child: Predicate, contexts: seq<KeyContext>, all: seq<KeyContext>,
                               i: nat)
  {
    && i < |contexts| - 1 && EvalInner(parent, contexts[..i + 1], all)
    && (forall k :: 0 < k <= i ==> !EvalInner(parent, contexts[..k], all))
    && EvalInner(child, contexts[i + 1..], contexts[i + 1..])
  }

  lemma {:induction false} BelowFromExactly(p: Predicate, contexts: seq<KeyContext>, all: seq<KeyContext>, from: nat)
    requires p.Descendant? && from < |contexts|
    requires forall k :: 0 < k <= from ==> !EvalInner(p.parent, contexts[..k], all)
    ensures EvalBelow(p, contexts, all, from)
       <==> exists i: nat :: from <= i && MatchesBelow(p.parent, p.child, contexts, all, i)
    decreases |contexts| - from
  {
    if from < |contexts| - 1 {
      if EvalInner(p.parent, contexts[..from + 1], all) {
        if EvalBelow(p, contexts, all, from) {
          assert MatchesBelow(p.parent, p.child, contexts, all, from);
        }
      } else {
        BelowFromExactly(p, contexts, all, from + 1);
      }
    }
  }

  /** Names and values are asked of the innermost context; a negation asks that no part of the whole stack matches;
      and a descendant that the parent matches somewhere and the child below its outermost match. */
  lemma {:induction false} EvalExactly(p: Predicate, contexts: seq<KeyContext>, all: seq<KeyContext>)
    requires contexts != []
    ensures p.Identifier? ==>
              (EvalInner(p, contexts, all) <==> exists e <- contexts[|contexts| - 1] :: e.key == p.name)
    ensures p.Equal? ==>
              (EvalInner(p, contexts, all) <==> HasValue(contexts[|contexts| - 1], p.left, p.right))
    ensures p.NotEqual? ==>
              (EvalInner(p, contexts, all) <==> !HasValue(contexts[|contexts| - 1], p.left, p.right))
    ensures p.Not? ==>
              (EvalInner(p, contexts, all) <==> !exists n :: 1 <= n <= |all| && EvalInner(p.pred, all[..n], all))
    ensures p.And? ==>
              (EvalInner(p, contexts, all) <==> EvalInner(p.first, contexts, all) && EvalInner(p.second, contexts, all))
    ensures p.Or? ==>
              (EvalInner(p, contexts, all) <==> EvalInner(p.first, contexts, all) || EvalInner(p.second, contexts, all))
    ensures p.Descendant? ==>
              (EvalInner(p, contexts, all)
               <==> exists i: nat :: MatchesBelow(p.parent, p.child, contexts, all, i))
  {
    match p
    case Equal(left, right) => GetFindsFirst(contexts[|contexts| - 1], left, right);
    case NotEqual(left, right) => GetFindsFirst(contexts[|contexts| - 1], left, right);
    case Descendant(_, _) => BelowFromExactly(p, contexts, all, 0);
    case _ =>
  }

  // ----- what depth and superset mean -----

  lemma {:induction false} DepthUpToIsDeepest(p: Predicate, contexts: seq<KeyContext>, depth: nat)
    requires depth <= |contexts|
    ensures var r := DepthUpTo(p, contexts, depth);
            && (r.Some? ==> 0 < r.value <= depth && EvalInner(p, contexts[..r.value], contexts))
            && (forall d :: 0 <= d <= depth && EvalInner(p, contexts[..d], contexts) ==> r.Some? && d <= r.value)
  {
    if !EvalInner(p, contexts[..depth], contexts) && depth > 0 {
      DepthUpToIsDeepest(p, contexts, depth - 1);
    }
  }

  predicate FreeOfDescendant(p: Predicate) {
    match p
    case Descendant(_, _) => false
    case Not(a) => FreeOfDescendant(a)
    case And(a, b) => FreeOfDescendant(a) && FreeOfDescendant(b)
    case Or(a, b) => FreeOfDescendant(a) && FreeOfDescendant(b)
    case _ => true
  }

  /** Outer contexts never undo a match: negation occurs only under negation. */
  predicate Outward(p: Predicate) {
    match p
    case Not(pred) => Inward(pred)
    case Descendant(a, b) => Outward(a) && Outward(b)
    case And(a, b) => Outward(a) && Outward(b)
    case Or(a, b) => Outward(a) && Outward(b)
    case _ => true
  }

  /** A match depends on the whole stack only, and taking outer contexts away never undoes it. */
  predicate Inward(p: Predicate) {
    match p
    case Not(pred) => Outward(pred)
    case And(a, b) => Inward(a) && Inward(b)
    case Or(a, b) => Inward(a) && Inward(b)
    case _ => false
  }

  /** Where negation occurs only under negation, adding outer contexts never turns a match into a mismatch. */
  lemma {:induction false} OuterContextsKeepMatch(p: Predicate, outer: seq<KeyContext>, inner: seq<KeyContext>,
                                                  all: seq<KeyContext>, all': seq<KeyContext>)
    requires Outward(p) && EvalInner(p, inner, all) && all != [] && outer + all <= all'
    ensures EvalInner(p, outer + inner, all')
    decreases p, 0
  {
    match p
    case Not(pred) =>
      forall n | 1 <= n <= |all'| ensures !EvalInner(pred, all'[..n], all') {
        if EvalInner(pred, all'[..n], all') {
          InnerContextsKeepMatch(pred, outer, all'[..n], all, all', all[..1]);
        }
      }
    case Descendant(_, _) =>
      var i := BelowWitness(p, inner, all, 0);
      var contexts := outer + inner;
      var k := |outer| + i;
      assert contexts[..k + 1] == outer + inner[..i + 1];
      OuterContextsKeepMatch(p.parent, outer, inner[..i + 1], all, all');
      BelowFromWitness(p, contexts, all', 0, k, inner[i + 1..]);
    case And(a, b) =>
      OuterContextsKeepMatch(a, outer, inner, all, all');
      OuterContextsKeepMatch(b, outer, inner, all, all');
    case Or(a, b) =>
      if EvalInner(a, inner, all) {
        OuterContextsKeepMatch(a, outer, inner, all, all');
      } else {
        OuterContextsKeepMatch(b, outer, inner, all, all');
      }
    case _ =>
  }

  lemma {:induction false} InnerContextsKeepMatch(p: Predicate, outer: seq<KeyContext>, from: seq<KeyContext>,
                                                  all: seq<KeyContext>, all': seq<KeyContext>, at: seq<KeyContext>)
    requires Inward(p) && EvalInner(p, from, all') && all != [] && outer + all <= all' && at != []
    ensures EvalInner(p, at, all)
    decreases p, 0
  {
    match p
    case Not(pred) =>
      forall n | 1 <= n <= |all| ensures !EvalInner(pred, all[..n], all) {
        if EvalInner(pred, all[..n], all) {
          assert outer + all[..n] == all'[..|outer| + n];
          OuterContextsKeepMatch(pred, outer, all[..n], all, all');
        }
      }
    case And(a, b) =>
      InnerContextsKeepMatch(a, outer, from, all, all', at);
      InnerContextsKeepMatch(b, outer, from, all, all', at);
    case Or(a, b) =>
      if EvalInner(a, from, all') {
        InnerContextsKeepMatch(a, outer, from, all, all', at);
      } else {
        InnerContextsKeepMatch(b, outer, from, all, all', at);
      }
  }

  lemma {:induction false} BelowWitness(p: Predicate, contexts: seq<KeyContext>, all: seq<KeyContext>, from: nat)
    returns (i: nat)
    requires p.Descendant? && from < |contexts| && EvalBelow(p, contexts, all, from)
    ensures from <= i < |contexts| - 1
    ensures EvalInner(p.parent, contexts[..i + 1], all)
    ensures EvalInner(p.child, contexts[i + 1..], contexts[i + 1..])
    decreases |contexts| - from
  {
    if EvalInner(p.parent, contexts[..from + 1], all) {
      i := from;
    } else {
      i := BelowWitness(p, contexts, all, from + 1);
    }
  }

  /** If the parent matches at `k` and the child matches on a part of what follows, the first parent
      match at or before `k` leaves at least as much context to the child. */
  lemma {:induction false} BelowFromWitness(p: Predicate, contexts: seq<KeyContext>, all: seq<KeyContext>, from: nat,
                                            k: nat, rest: seq<KeyContext>)
    requires p.Descendant? && Outward(p) && from <= k < |contexts| - 1
    requires EvalInner(p.parent, contexts[..k + 1], all)
    requires rest == contexts[k + 1..] && EvalInner(p.child, rest, rest)
    ensures EvalBelow(p, contexts, all, from)
    decreases p, 0, k - from
  {
    if EvalInner(p.parent, contexts[..from + 1], all) {
      var below := contexts[from + 1..];
      assert below == below[..k - from] + rest;
      OuterContextsKeepMatch(p.child, below[..k - from], rest, rest, below);
    } else {
      BelowFromWitness(p, contexts, all, from + 1, k, rest);
    }
  }

  /** One of what `||` joins, or the whole. */
  predicate IsAlternative(p: Predicate, a: Predicate) {
    p == a || (p.Or? && (IsAlternative(p.first, a) || IsAlternative(p.second, a)))
  }

  /** One of what `&&` joins in the last part of a `>`, at any depth, or the whole. */
  predicate IsDemanded(p: Predicate, a: Predicate) {
    || p == a
    || (p.Descendant? && IsDemanded(p.child, a))
    || (p.And? && (IsDemanded(p.first, a) || IsDemanded(p.second, a)))
  }

  predicate IsShared(p: Predicate, other: Predicate, a: Predicate) {
    IsAlternative(p, a) && IsDemanded(other, a) && (a.Or? ==> a == other)
  }

  /** What the check says yes to: one alternative of the first predicate is demanded by the second, and an alternative
      that is itself an `||` is all of it. */
  lemma {:induction false} SupersetIff(p: Predicate, other: Predicate)
    ensures IsSuperset(p, other) <==> exists a :: IsShared(p, other, a)
    decreases p, other
  {
    if p == other {
      assert IsShared(p, other, p);
    } else if p.Or? {
      SupersetIff(p.first, other);
      SupersetIff(p.second, other);
      assert forall a :: IsShared(p, other, a) <==> IsShared(p.first, other, a) || IsShared(p.second, other, a);
    } else {
      match other
      case Descendant(_, child) =>
        SupersetIff(p, child);
        assert forall a :: IsShared(p, other, a) <==> IsShared(p, child, a);
      case And(first, second) =>
        SupersetIff(p, first);
        SupersetIff(p, second);
        assert forall a :: IsShared(p, other, a) <==> IsShared(p, first, a) || IsShared(p, second, a);
      case _ =>
    }
  }

  /** The stack with outer contexts around it, of which `all` is an extension, still matches. */
  ghost predicate StaysMatched(p: Predicate, outer: seq<KeyContext>, inner: seq<KeyContext>, all: seq<KeyContext>) {
    outer != [] && inner != [] && outer + inner <= all && EvalInner(p, inner, inner)
    ==> EvalInner(p, outer + inner, all)
  }

  /** No outer contexts undo a match of the predicate. */
  ghost predicate NeverUndone(p: Predicate) {
    forall outer, inner, all :: StaysMatched(p, outer, inner, all)
  }

  /** Syntactically: it is enough that negation occurs only under negation. */
  lemma {:induction false} OutwardIsNeverUndone(p: Predicate)
    requires Outward(p)
    ensures NeverUndone(p)
  {
    forall outer, inner, all ensures StaysMatched(p, outer, inner, all) {
      if outer != [] && inner != [] && outer + inner <= all && EvalInner(p, inner, inner) {
        OuterContextsKeepMatch(p, outer, inner, inner, all);
      }
    }
  }

  /** The check, with one more question where it drops the parent of a `>`: outer contexts must not undo a match.
      Then it never says yes wrongly. */
  ghost predicate SupersetIsSound(p: Predicate, other: Predicate)
    decreases p, other
  {
    p == other ||
    if p.Or? then SupersetIsSound(p.first, other) || SupersetIsSound(p.second, other)
    else
      match other
      case Descendant(_, child) => NeverUndone(p) && SupersetIsSound(p, child)
      case And(left, right) => SupersetIsSound(p, left) || SupersetIsSound(p, right)
      case _ => false
  }

  /** A sound superset matches wherever the other predicate does. */
  lemma {:induction false} SupersetMatchesMore(p: Predicate, other: Predicate, contexts: seq<KeyContext>,
                                               all: seq<KeyContext>)
    requires SupersetIsSound(p, other) && contexts <= all
    requires EvalInner(other, contexts, all)
    ensures IsSuperset(p, other) && EvalInner(p, contexts, all)
    decreases p, other
  {
    if p != other {
      if p.Or? {
        if SupersetIsSound(p.first, other) {
          SupersetMatchesMore(p.first, other, contexts, all);
        } else {
          SupersetMatchesMore(p.second, other, contexts, all);
        }
      } else {
        match other
        case Descendant(_, child) =>
          var i := BelowWitness(other, contexts, all, 0);
          var below := contexts[i + 1..];
          SupersetMatchesMore(p, child, below, below);
          assert contexts == contexts[..i + 1] + below;
          assert StaysMatched(p, contexts[..i + 1], below, all);
        case And(left, right) =>
          if SupersetIsSound(p, left) {
            SupersetMatchesMore(p, left, contexts, all);
          } else {
            SupersetMatchesMore(p, right, contexts, all);
          }
      }
    }
  }

  /** The check is sound for every first predicate whose negations occur only under negation. */
  lemma {:induction false} SupersetOfOutwardIsSound(p: Predicate, other: Predicate)
    requires IsSuperset(p, other) && Outward(p)
    ensures SupersetIsSound(p, other)
    decreases p, other
  {
    if p != other {
      if p.Or? {
        if IsSuperset(p.first, other) {
          SupersetOfOutwardIsSound(p.first, other);
        } else {
          SupersetOfOutwardIsSound(p.second, other);
        }
      } else {
        match other
        case Descendant(_, child) =>
          OutwardIsNeverUndone(p);
          SupersetOfOutwardIsSound(p, child);
        case And(left, right) => SupersetOfOutwardIsSound(p, if IsSuperset(p, left) then left else right);
      }
    }
  }

  /** The check is sound for every second predicate without `>`. */
  lemma {:induction false} SupersetOfFlatIsSound(p: Predicate, other: Predicate)
    requires IsSuperset(p, other) && FreeOfDescendant(other)
    ensures SupersetIsSound(p, other)
    decreases p, other
  {
    if p != other {
      if p.Or? {
        if IsSuperset(p.first, other) {
          SupersetOfFlatIsSound(p.first, other);
        } else {
          SupersetOfFlatIsSound(p.second, other);
        }
      } else {
        match other
        case And(left, right) => SupersetOfFlatIsSound(p, if IsSuperset(p, left) then left else right);
      }
    }
  }

  // ----- when the check is right -----

  /** A yes of the check for this pair would be right. */
  ghost predicate RightFor(p: Predicate, other: Predicate) {
    forall contexts, all | contexts <= all && EvalInner(other, contexts, all) :: EvalInner(p, contexts, all)
  }

  /** Every yes of the check for this first predicate is right. */
  ghost predicate NeverWrong(p: Predicate) {
    forall other | IsSuperset(p, other) :: RightFor(p, other)
  }

  ghost predicate MatchesInside(p: Predicate, contexts: seq<KeyContext>, k: nat) {
    0 < k < |contexts| && EvalInner(p, contexts[k..], contexts[k..])
  }

  /** A yes means that the first predicate matches where the second does, or on an inner part of it alone. */
  lemma {:induction false} YesMatchesSomewhere(p: Predicate, other: Predicate, contexts: seq<KeyContext>,
                                               all: seq<KeyContext>)
    requires IsSuperset(p, other) && EvalInner(other, contexts, all)
    ensures EvalInner(p, contexts, all) || exists k: nat :: MatchesInside(p, contexts, k)
    decreases p, other
  {
    if p != other {
      if p.Or? {
        var q := if IsSuperset(p.first, other) then p.first else p.second;
        YesMatchesSomewhere(q, other, contexts, all);
        if !EvalInner(q, contexts, all) {
          var k: nat :| MatchesInside(q, contexts, k);
          assert MatchesInside(p, contexts, k);
        }
      } else {
        match other
        case Descendant(_, child) =>
          var i := BelowWitness(other, contexts, all, 0);
          var below := contexts[i + 1..];
          YesMatchesSomewhere(p, child, below, below);
          if EvalInner(p, below, below) {
            assert MatchesInside(p, contexts, i + 1);
          } else {
            var k: nat :| MatchesInside(p, below, k);
            assert below[k..] == contexts[i + 1 + k..];
            assert MatchesInside(p, contexts, i + 1 + k);
          }
        case And(left, right) =>
          YesMatchesSomewhere(p, if IsSuperset(p, left) then left else right, contexts, all);
      }
    }
  }

  lemma {:induction false} NeverUndoneIsNeverWrong(p: Predicate)
    requires NeverUndone(p)
    ensures NeverWrong(p)
  {
    forall other, contexts, all | IsSuperset(p, other) && contexts <= all && EvalInner(other, contexts, all)
      ensures EvalInner(p, contexts, all)
    {
      YesMatchesSomewhere(p, other, contexts, all);
      if k: nat :| MatchesInside(p, contexts, k) {
        assert contexts == contexts[..k] + contexts[k..];
        assert StaysMatched(p, contexts[..k], contexts[k..], all);
      }
    }
  }

  /** Matches in any context. */
  function Anywhere(): Predicate {
    Or(Equal("", ""), NotEqual("", ""))
  }

  /** A disjunct that makes the predicate match, below any context: the check says yes to it. */
  lemma {:induction false} MatchingDisjunct(p: Predicate, inner: seq<KeyContext>) returns (q: Predicate)
    requires EvalInner(p, inner, inner)
    ensures EvalInner(q, inner, inner) && IsSuperset(p, Descendant(Anywhere(), q))
    decreases p
  {
    if p.Or? {
      q := MatchingDisjunct(if EvalInner(p.first, inner, inner) then p.first else p.second, inner);
    } else {
      q := p;
    }
  }

  lemma {:induction false} OneContextKeepsMatch(p: Predicate, c: KeyContext, inner: seq<KeyContext>,
                                                all: seq<KeyContext>)
    requires NeverWrong(p) && EvalInner(p, inner, inner) && [c] + inner <= all
    ensures EvalInner(p, [c] + inner, all)
  {
    var q := MatchingDisjunct(p, inner);
    var other, contexts := Descendant(Anywhere(), q), [c] + inner;
    assert contexts[..1] == [c] && contexts[1..] == inner;
    assert EvalInner(Anywhere(), contexts[..1], all);
    assert EvalBelow(other, contexts, all, 0);
    assert RightFor(p, other);
  }

  lemma {:induction false} ContextsKeepMatch(p: Predicate, outer: seq<KeyContext>, inner: seq<KeyContext>,
                                             all: seq<KeyContext>)
    requires NeverWrong(p) && EvalInner(p, inner, inner) && outer != [] && outer + inner <= all
    ensures EvalInner(p, outer + inner, all)
    decreases |outer|
  {
    var rest := outer[1..] + inner;
    assert [outer[0]] + rest == outer + inner;
    if |outer| > 1 {
      ContextsKeepMatch(p, outer[1..], inner, rest);
    } else {
      assert rest == inner;
    }
    OneContextKeepsMatch(p, outer[0], rest, all);
  }

  /** The check never says yes wrongly for a first predicate exactly when no outer contexts undo a match of it. */
  lemma {:induction false} NeverWrongIff(p: Predicate)
    ensures NeverWrong(p) <==> NeverUndone(p)
  {
    if NeverWrong(p) {
      forall outer, inner, all ensures StaysMatched(p, outer, inner, all) {
        if outer != [] && inner != [] && outer + inner <= all && EvalInner(p, inner, inner) {
          ContextsKeepMatch(p, outer, inner, all);
        }
      }
    }
    if NeverUndone(p) {
      NeverUndoneIsNeverWrong(p);
    }
  }

  /** A sound superset is enabled wherever the other predicate is, at least as deep. */
  lemma SupersetIsAtLeastAsDeep(p: Predicate, other: Predicate, contexts: seq<KeyContext>)
    requires SupersetIsSound(p, other)
    requires DepthOf(other, contexts).Some?
    ensures DepthOf(p, contexts).Some? && DepthOf(other, contexts).value <= DepthOf(p, contexts).value
  {
    DepthUpToIsDeepest(p, contexts, |contexts|);
    DepthUpToIsDeepest(other, contexts, |contexts|);
    var d := DepthOf(other, contexts).value;
    SupersetMatchesMore(p, other, contexts[..d], contexts);
  }

  /** Where a negation meets `>` the check can say yes wrongly: `!Workspace` is reported to match wherever
      `Pane > !Workspace` does, yet in Workspace, Pane, Editor only the latter matches. */
  lemma NegationBelowBreaksSuperset()
    ensures var p := Not(Identifier("Workspace"));
            var other := Descendant(Identifier("Pane"), p);
            var contexts := [[ContextEntry("Workspace", None)], [ContextEntry("Pane", None)],
                             [ContextEntry("Editor", None)]];
            && IsSuperset(p, other)
            && EvalInner(other, contexts, contexts)
            && !EvalInner(p, contexts, contexts)
  {
    var p := Not(Identifier("Workspace"));
    var other := Descendant(Identifier("Pane"), p);
    var w: KeyContext := [ContextEntry("Workspace", None)];
    var n: KeyContext := [ContextEntry("Pane", None)];
    var e: KeyContext := [ContextEntry("Editor", None)];
    var contexts := [w, n, e];
    assert w[0].key == "Workspace";
    assert contexts[..1] == [w] && contexts[..2] == [w, n] && contexts[2..] == [e];
    assert [e][..1] == [e];
    assert EvalInner(Identifier("Workspace"), contexts[..1], contexts);
    assert !EvalInner(Identifier("Pane"), contexts[..1], contexts);
    assert n[0].key == "Pane";
    assert EvalInner(Identifier("Pane"), contexts[..2], contexts);
    assert EvalInner(p, [e], [e]);
    assert EvalBelow(other, contexts, contexts, 1);
  }
}

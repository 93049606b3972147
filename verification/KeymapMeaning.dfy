/** What the resolution of typed input means, told from keys, modifiers, contexts and actions alone. */
module KeymapMeaning {
  import opened Wrappers
  import opened KeyContexts
  import opened Keymaps

  /** The key itself with its modifiers; or the character the key produced, where that is not its name, with control and
      platform as they were held and nothing else. */
  ghost predicate TypedAs(typed: Keystroke, target: Keystroke) {
    || (typed.key == target.key && typed.modifiers == target.modifiers)
    || (exists c :: && typed.keyChar == Some(c) && c != typed.key && target.key == c
                    && (target.modifiers.control <==> typed.modifiers.control)
                    && (target.modifiers.platform <==> typed.modifiers.platform)
                    && !target.modifiers.alt && !target.modifiers.shift && !target.modifiers.function_)
  }

  /** The input is typed as the first keystrokes of the binding. */
  ghost predicate Begins(input: seq<Keystroke>, b: KeyBinding) {
    |input| <= |b.keystrokes| && forall k :: 0 <= k < |input| ==> TypedAs(input[k], b.keystrokes[k])
  }

  lemma TypedAsIsShouldMatch(typed: Keystroke, target: Keystroke)
    ensures ShouldMatch(typed, target) <==> TypedAs(typed, target)
  {
  }

  /** A keystroke that produced no character runs exactly the bindings of its key and modifiers. */
  lemma PlainKeysMatchIff(typed: Keystroke, target: Keystroke)
    requires typed.keyChar.None?
    ensures ShouldMatch(typed, target) <==> typed.key == target.key && typed.modifiers == target.modifiers
  {
  }

  /** The input matches a binding in full exactly when it is typed as all of its keystrokes, and in part exactly when as
      some but not all. */
  lemma MatchesIffBegins(b: KeyBinding, input: seq<Keystroke>)
    ensures b.MatchKeystrokes(input) == Some(false) <==> Begins(input, b) && |input| == |b.keystrokes|
    ensures b.MatchKeystrokes(input) == Some(true) <==> Begins(input, b) && |input| < |b.keystrokes|
  {
    forall k | 0 <= k < |input| && k < |b.keystrokes|
      ensures ShouldMatch(input[k], b.keystrokes[k]) <==> TypedAs(input[k], b.keystrokes[k])
    {
      TypedAsIsShouldMatch(input[k], b.keystrokes[k]);
    }
  }

  /** Plain input matches in full exactly the bindings of its keys and modifiers, position by position. */
  lemma PlainInputMatchesIff(b: KeyBinding, input: seq<Keystroke>)
    requires forall k <- input :: k.keyChar.None?
    ensures b.MatchKeystrokes(input) == Some(false)
       <==> && |input| == |b.keystrokes|
            && forall k :: 0 <= k < |input| ==> input[k].key == b.keystrokes[k].key
                                                && input[k].modifiers == b.keystrokes[k].modifiers
  {
    MatchesIffBegins(b, input);
    forall k | 0 <= k < |input| && k < |b.keystrokes|
      ensures TypedAs(input[k], b.keystrokes[k])
         <==> input[k].key == b.keystrokes[k].key && input[k].modifiers == b.keystrokes[k].modifiers
    {
      TypedAsIsShouldMatch(input[k], b.keystrokes[k]);
    }
  }

  /** A match in part is input that some more keys turn into a full match. */
  lemma PartMatchesIffExtends(b: KeyBinding, input: seq<Keystroke>)
    ensures b.MatchKeystrokes(input) == Some(true)
       <==> exists rest :: rest != [] && b.MatchKeystrokes(input + rest) == Some(false)
  {
    if b.MatchKeystrokes(input) == Some(true) {
      var rest := b.keystrokes[|input|..];
      assert b.MatchKeystrokes(input + rest) == Some(false);
    }
    forall rest | rest != [] && b.MatchKeystrokes(input + rest) == Some(false)
      ensures b.MatchKeystrokes(input) == Some(true)
    {
      assert forall k :: 0 <= k < |input| ==> (input + rest)[k] == input[k];
    }
  }

  /** A binding without a predicate applies at the depth of the whole stack; one with a predicate at the deepest depth
      at which it holds. */
  ghost predicate AppliesAt(b: KeyBinding, contexts: seq<KeyContext>, depth: nat) {
    depth <= |contexts| &&
    match b.context
    case None => depth == |contexts|
    case Some(p) =>
      && EvalInner(p, contexts[..depth], contexts)
      && forall d :: depth < d <= |contexts| ==> !EvalInner(p, contexts[..d], contexts)
  }

  lemma EnabledIsAppliesAt(b: KeyBinding, contexts: seq<KeyContext>, depth: nat)
    ensures b.Enabled(contexts) == Some(depth) <==> AppliesAt(b, contexts, depth)
  {
    if b.context.Some? {
      DepthUpToIsDeepest(b.context.value, contexts, |contexts|);
    }
  }

  /** The binding at `ix` is run by the input as a whole, at this depth. */
  ghost predicate RunsAt(bs: seq<KeyBinding>, input: seq<Keystroke>, contexts: seq<KeyContext>, ix: nat, depth: nat) {
    ix < |bs| && Begins(input, bs[ix]) && |input| == |bs[ix].keystrokes| && AppliesAt(bs[ix], contexts, depth)
  }

  /** The binding at `j`, deeper than `ix` or as deep and added later, takes it away: a removal by the user or without a
      source, or an unbind of its action from the same keystrokes. */
  ghost predicate TakesAway(bs: seq<KeyBinding>, input: seq<Keystroke>, contexts: seq<KeyContext>, ix: nat, depth: nat,
                            j: nat, at: nat)
    requires ix < |bs|
  {
    && RunsAt(bs, input, contexts, j, at)
    && (at > depth || (at == depth && j > ix))
    && (|| (bs[j].action == NoAction && (bs[j].meta == None || bs[j].meta == Some(0)))
        || (&& bs[ix].action.Custom? && bs[j].action == Unbind(bs[ix].action.name)
            && bs[j].keystrokes == bs[ix].keystrokes))
  }

  ghost predicate Found(bs: seq<KeyBinding>, input: seq<Keystroke>, contexts: seq<KeyContext>, ix: nat) {
    exists depth: nat ::
      && RunsAt(bs, input, contexts, ix, depth) && bs[ix].action.Custom?
      && forall j: nat, at: nat :: !TakesAway(bs, input, contexts, ix, depth, j, at)
  }

  lemma AppliesIsRunsAt(bs: seq<KeyBinding>, input: seq<Keystroke>, contexts: seq<KeyContext>, ix: nat, depth: nat)
    ensures RunsAt(bs, input, contexts, ix, depth)
       <==> Applies(bs, input, contexts, ix) && bs[ix].Enabled(contexts) == Some(depth)
  {
    if ix < |bs| {
      MatchesIffBegins(bs[ix], input);
      EnabledIsAppliesAt(bs[ix], contexts, depth);
    }
  }

  lemma ReturnedIsFound(bs: seq<KeyBinding>, input: seq<Keystroke>, contexts: seq<KeyContext>, ix: nat)
    ensures Returned(bs, input, contexts, ix) <==> Found(bs, input, contexts, ix)
  {
    if Returned(bs, input, contexts, ix) {
      var depth := bs[ix].Enabled(contexts).value;
      AppliesIsRunsAt(bs, input, contexts, ix, depth);
      forall j: nat, at: nat ensures !TakesAway(bs, input, contexts, ix, depth, j, at) {
        AppliesIsRunsAt(bs, input, contexts, j, at);
      }
    }
    if Found(bs, input, contexts, ix) {
      var depth: nat :| && RunsAt(bs, input, contexts, ix, depth) && bs[ix].action.Custom?
                        && forall j: nat, at: nat :: !TakesAway(bs, input, contexts, ix, depth, j, at);
      AppliesIsRunsAt(bs, input, contexts, ix, depth);
      forall j: nat | Applies(bs, input, contexts, j) && Outranks(bs, contexts, j, ix)
        ensures !bs[j].EndsSearch() && !IsUnbound(bs[j], bs[ix])
      {
        var at := bs[j].Enabled(contexts).value;
        AppliesIsRunsAt(bs, input, contexts, j, at);
        assert !TakesAway(bs, input, contexts, ix, depth, j, at);
      }
    }
  }

  /** One binding comes before another: it applies deeper, or as deep and was added later. */
  ghost predicate Before(bs: seq<KeyBinding>, contexts: seq<KeyContext>, a: nat, b: nat) {
    exists d: nat, e: nat ::
      && a < |bs| && b < |bs| && AppliesAt(bs[a], contexts, d) && AppliesAt(bs[b], contexts, e)
      && (d > e || (d == e && a > b))
  }

  /** The bindings found are exactly those the input runs that nothing takes away, the deepest first and among equally
      deep ones the latest. */
  lemma ResolveFindsExactly(bs: seq<KeyBinding>, input: seq<Keystroke>, contexts: seq<KeyContext>)
    ensures forall ix: nat :: ix in Resolve(bs, input, contexts).found <==> Found(bs, input, contexts, ix)
    ensures forall m, n :: 0 <= m < n < |Resolve(bs, input, contexts).found| ==>
              Before(bs, contexts, Resolve(bs, input, contexts).found[m], Resolve(bs, input, contexts).found[n])
  {
    var found := Resolve(bs, input, contexts).found;
    ResolveFindsReturned(bs, input, contexts);
    forall ix: nat ensures ix in found <==> Found(bs, input, contexts, ix) {
      ReturnedIsFound(bs, input, contexts, ix);
    }
    forall m, n | 0 <= m < n < |found| ensures Before(bs, contexts, found[m], found[n]) {
      assert Outranks(bs, contexts, found[m], found[n]);
      EnabledIsAppliesAt(bs[found[m]], contexts, bs[found[m]].Enabled(contexts).value);
      EnabledIsAppliesAt(bs[found[n]], contexts, bs[found[n]].Enabled(contexts).value);
    }
  }

  /** The binding at `ix` applies and could be run by the input and some more keys. */
  ghost predicate Awaits(bs: seq<KeyBinding>, input: seq<Keystroke>, contexts: seq<KeyContext>, ix: nat) {
    && ix < |bs| && Begins(input, bs[ix]) && |input| < |bs[ix].keystrokes|
    && exists depth: nat :: AppliesAt(bs[ix], contexts, depth)
  }

  lemma PrefixMatchIsAwaits(bs: seq<KeyBinding>, input: seq<Keystroke>, contexts: seq<KeyContext>, ix: nat)
    ensures PrefixMatch(bs, input, contexts, ix) <==> Awaits(bs, input, contexts, ix)
  {
    if ix < |bs| {
      MatchesIffBegins(bs[ix], input);
      if bs[ix].Enabled(contexts).Some? {
        EnabledIsAppliesAt(bs[ix], contexts, bs[ix].Enabled(contexts).value);
      }
      forall depth: nat | AppliesAt(bs[ix], contexts, depth) ensures bs[ix].Enabled(contexts).Some? {
        EnabledIsAppliesAt(bs[ix], contexts, depth);
      }
    }
  }

  /** A real binding that awaits more keys, not added before the first binding found, and that no later awaiting removal
      or unbind of the same keystrokes takes away. */
  ghost predicate StaysAwaited(bs: seq<KeyBinding>, input: seq<Keystroke>, contexts: seq<KeyContext>, found: seq<nat>,
                               ix: nat)
  {
    && Awaits(bs, input, contexts, ix) && bs[ix].action.Custom?
    && (found != [] ==> found[0] <= ix)
    && forall j: nat ::
         Awaits(bs, input, contexts, j) && j > ix && bs[j].keystrokes == bs[ix].keystrokes ==> bs[j].action.Custom?
  }

  lemma ResolvePendsExactly(bs: seq<KeyBinding>, input: seq<Keystroke>, contexts: seq<KeyContext>)
    ensures Resolve(bs, input, contexts).pending
       <==> exists ix: nat :: StaysAwaited(bs, input, contexts, Resolve(bs, input, contexts).found, ix)
  {
    var r := Resolve(bs, input, contexts);
    ResolvePendingMeaning(bs, input, contexts);
    forall ix: nat ensures PrefixMatch(bs, input, contexts, ix) <==> Awaits(bs, input, contexts, ix) {
      PrefixMatchIsAwaits(bs, input, contexts, ix);
    }
    if r.pending {
      var ix: nat :| && PrefixMatch(bs, input, contexts, ix) && bs[ix].action.Custom?
                     && (r.found != [] ==> r.found[0] <= ix)
                     && forall j: nat ::
                          PrefixMatch(bs, input, contexts, j) && j > ix && bs[j].keystrokes == bs[ix].keystrokes
                          ==> bs[j].action.Custom?;
      assert StaysAwaited(bs, input, contexts, r.found, ix);
    }
    if ix: nat :| StaysAwaited(bs, input, contexts, r.found, ix) {
      assert PrefixMatch(bs, input, contexts, ix);
    }
  }

  // ----- the listing by action -----

  /** The binding at `j` hides the one at `ix` from the listing: a later removal of the same keystrokes, or an unbind of
      the action from them, without a predicate or with one that is a superset. */
  ghost predicate Hides(bs: seq<KeyBinding>, ix: nat, j: nat)
    requires ix < |bs|
  {
    && ix < j < |bs| && bs[j].keystrokes == bs[ix].keystrokes
    && (|| bs[j].context == None
        || (bs[ix].context.Some? && IsSuperset(bs[j].context.value, bs[ix].context.value)))
    && (bs[j].action == NoAction || (bs[ix].action.Custom? && bs[j].action == Unbind(bs[ix].action.name)))
  }

  lemma ListedExactly(bs: seq<KeyBinding>, action: Action, ix: nat)
    ensures ListedFor(bs, action, ix)
       <==> ix < |bs| && action.Custom? && bs[ix].action == action && forall j: nat :: !Hides(bs, ix, j)
  {
    if ix < |bs| && action.Custom? && bs[ix].action == action {
      forall j: nat | ix < j < |bs| ensures Silences(bs[j], bs[ix]) <==> Hides(bs, ix, j) {
      }
      if ListedFor(bs, action, ix) {
        forall j: nat ensures !Hides(bs, ix, j) {
        }
      }
    }
  }

  /** Actions have one type exactly when they are of one kind and, if real, of one id and name: data is no part. */
  lemma TypesAgreeIff(a: Action, b: Action)
    ensures a.Type() == b.Type()
       <==> || (a.NoAction? && b.NoAction?) || (a.Unbind? && b.Unbind?)
            || (a.Custom? && b.Custom? && a.id == b.id && a.name == b.name)
  {
  }
}

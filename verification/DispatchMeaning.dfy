/** What dispatching keys and listing bindings by action mean, told from the resolution of input alone. */
module DispatchMeaning {
  import opened Wrappers
  import opened KeyContexts
  import opened Keymaps
  import opened KeymapMeaning
  import opened KeyDispatch

  /** All keystrokes of some segments, the first segment first. */
  ghost function Joined(segments: seq<seq<Keystroke>>): seq<Keystroke>
    decreases |segments|
  {
    if segments == [] then [] else Joined(segments[..|segments| - 1]) + segments[|segments| - 1]
  }

  lemma {:induction false} ConcatIsJoined(segments: seq<seq<Keystroke>>)
    ensures Concat(segments) == Joined(segments)
    decreases |segments|
  {
    if segments != [] {
      var rest, last := segments[..|segments| - 1], segments[|segments| - 1];
      assert segments == rest + [last];
      ConcatAppend(rest, [last]);
      assert Concat([last]) == last + Concat([]) == last;
      ConcatIsJoined(rest);
    }
  }

  /** The segment is replayed by its last keystroke with the bindings found for all of it. */
  ghost predicate Replayed(lookup: Lookup, segment: seq<Keystroke>, replay: Replay) {
    && segment != [] && replay.keystroke == segment[|segment| - 1]
    && replay.bindings == lookup(segment).found
  }

  /** The segment is bound, or a single key, and no more of what was left is bound. */
  ghost predicate Greedy(lookup: Lookup, segment: seq<Keystroke>, left: seq<Keystroke>) {
    && segment != [] && segment <= left
    && (lookup(segment).found != [] || |segment| == 1)
    && forall k :: |segment| < k <= |left| ==> lookup(left[..k]).found == []
  }

  /** The keys typed are the replayed segments, each greedy for all that was left, and a last part that waits for more
      keys, or is run, or is the new key alone and bound to nothing. */
  ghost predicate Explains(lookup: Lookup, input: seq<Keystroke>, key: Keystroke, segments: seq<seq<Keystroke>>,
                           last: seq<Keystroke>, result: DispatchResult)
  {
    && Joined(segments) + last == input + [key]
    && |result.toReplay| == |segments|
    && (forall i :: 0 <= i < |segments| ==>
          && Replayed(lookup, segments[i], result.toReplay[i])
          && Greedy(lookup, segments[i], Joined(segments[i..]) + last))
    && last != [] && last[|last| - 1] == key
    && (if lookup(last).pending then
          && result.pending == last && result.bindings == []
          && (result.pendingHasBinding <==> lookup(last).found != [])
        else
          && result.pending == [] && !result.pendingHasBinding && result.bindings == lookup(last).found
          && (lookup(last).found == [] ==> last == [key]))
  }

  lemma DispatchExplained(lookup: Lookup, input: seq<Keystroke>, key: Keystroke, result: DispatchResult)
    requires Dispatches(lookup, SplitAt(lookup, input, key), result)
    ensures Explains(lookup, input, key, SplitAt(lookup, input, key).segments, SplitAt(lookup, input, key).last, result)
  {
    var split := SplitAt(lookup, input, key);
    var segments := split.segments;
    SplitIsComplete(lookup, input, key);
    ConcatIsJoined(segments);
    forall i | 0 <= i < |segments|
      ensures Replayed(lookup, segments[i], result.toReplay[i])
      ensures Greedy(lookup, segments[i], Joined(segments[i..]) + split.last)
    {
      assert StepIsGreedy(lookup, split, i);
      ConcatIsJoined(segments[i..]);
      GreedyExplained(lookup, segments[i], Joined(segments[i..]) + split.last);
    }
  }

  lemma GreedyExplained(lookup: Lookup, segment: seq<Keystroke>, left: seq<Keystroke>)
    requires IsGreedy(lookup, segment, left)
    ensures Greedy(lookup, segment, left)
  {
    forall k | |segment| < k <= |left| ensures lookup(left[..k]).found == [] {
      assert !Bound(lookup, left[..k]);
    }
  }

  /** Dispatching a key does just that. */
  method DispatchExplaining(keymap: Keymap, contexts: seq<KeyContext>, input: seq<Keystroke>, key: Keystroke)
    returns (result: DispatchResult)
    ensures exists segments, last :: Explains(LookupIn(keymap.bindings, contexts), input, key, segments, last, result)
  {
    result := DispatchKey(keymap, contexts, input, key);
    DispatchExplained(LookupIn(keymap.bindings, contexts), input, key, result);
  }

  /** Flushing replays all of the input in greedy segments. */
  ghost predicate FlushExplains(lookup: Lookup, input: seq<Keystroke>, segments: seq<seq<Keystroke>>,
                                toReplay: seq<Replay>)
  {
    && Joined(segments) == input && |toReplay| == |segments|
    && forall i :: 0 <= i < |segments| ==>
         Replayed(lookup, segments[i], toReplay[i]) && Greedy(lookup, segments[i], Joined(segments[i..]))
  }

  lemma FlushExplained(lookup: Lookup, input: seq<Keystroke>, toReplay: seq<Replay>)
    requires Replays(lookup, Segments(lookup, input), toReplay)
    ensures FlushExplains(lookup, input, Segments(lookup, input), toReplay)
  {
    var segments := Segments(lookup, input);
    SegmentsAreGreedy(lookup, input);
    ConcatIsJoined(segments);
    forall i | 0 <= i < |segments|
      ensures Replayed(lookup, segments[i], toReplay[i]) && Greedy(lookup, segments[i], Joined(segments[i..]))
    {
      assert IsGreedy(lookup, segments[i], Concat(segments[i..]));
      ConcatIsJoined(segments[i..]);
      GreedyExplained(lookup, segments[i], Joined(segments[i..]));
    }
  }

  // ----- listing by action -----

  /** The action of the binding is what its own keystrokes run: of all they run here, one binding of the action comes
      before every other. */
  ghost predicate RunsItsAction(bs: seq<KeyBinding>, contexts: seq<KeyContext>, ix: nat)
    requires ix < |bs|
  {
    exists top: nat ::
      && Found(bs, bs[ix].keystrokes, contexts, top) && top < |bs| && bs[top].action == bs[ix].action
      && forall other: nat :: Found(bs, bs[ix].keystrokes, contexts, other) && other != top ==>
           Before(bs, contexts, top, other)
  }

  lemma BeforeIsStrict(bs: seq<KeyBinding>, contexts: seq<KeyContext>, a: nat, b: nat)
    requires Before(bs, contexts, a, b)
    ensures !Before(bs, contexts, b, a)
  {
    var d: nat, e: nat :| && a < |bs| && b < |bs| && AppliesAt(bs[a], contexts, d) && AppliesAt(bs[b], contexts, e)
                          && (d > e || (d == e && a > b));
    EnabledIsAppliesAt(bs[a], contexts, d);
    EnabledIsAppliesAt(bs[b], contexts, e);
    forall d': nat, e': nat | AppliesAt(bs[a], contexts, d') && AppliesAt(bs[b], contexts, e')
      ensures d' == d && e' == e
    {
      EnabledIsAppliesAt(bs[a], contexts, d');
      EnabledIsAppliesAt(bs[b], contexts, e');
    }
  }

  lemma NotShadowedIff(bs: seq<KeyBinding>, contexts: seq<KeyContext>, ix: nat)
    requires ix < |bs|
    ensures NotShadowed(bs, LookupIn(bs, contexts), ix) <==> RunsItsAction(bs, contexts, ix)
  {
    var keys := bs[ix].keystrokes;
    var found := Resolve(bs, keys, contexts).found;
    ResolveFindsExactly(bs, keys, contexts);
    if NotShadowed(bs, LookupIn(bs, contexts), ix) {
      assert found[0] in found;
      forall other: nat | Found(bs, keys, contexts, other) && other != found[0]
        ensures Before(bs, contexts, found[0], other)
      {
        var n :| 0 <= n < |found| && found[n] == other;
        assert Before(bs, contexts, found[0], found[n]);
      }
    }
    if top: nat :| && Found(bs, keys, contexts, top) && top < |bs| && bs[top].action == bs[ix].action
                   && forall other: nat :: Found(bs, keys, contexts, other) && other != top ==>
                        Before(bs, contexts, top, other)
    {
      assert top in found && found[0] in found;
      if found[0] != top {
        var n :| 0 <= n < |found| && found[n] == top;
        BeforeIsStrict(bs, contexts, found[0], found[n]);
      }
    }
  }

  /** The listing for an action, in the order added: its bindings that nothing hides and whose keystrokes run the action
      in these contexts. */
  lemma VisibleExactly(keymap: Keymap, action: Action, contexts: seq<KeyContext>, ix: nat)
    requires keymap.Valid()
    ensures ix in VisibleForAction(keymap, action, contexts)
       <==> && ix < |keymap.bindings| && action.Custom? && keymap.bindings[ix].action == action
            && (forall j: nat :: !Hides(keymap.bindings, ix, j))
            && RunsItsAction(keymap.bindings, contexts, ix)
    ensures Ascending(VisibleForAction(keymap, action, contexts))
  {
    var bs, ixs := keymap.bindings, keymap.BindingsForAction(action);
    ListedInRange(bs, action, ixs);
    FilterVisibleIsFilter(bs, LookupIn(bs, contexts), ixs);
    ListedExactly(bs, action, ix);
    if ix < |bs| {
      NotShadowedIff(bs, contexts, ix);
    }
  }
}

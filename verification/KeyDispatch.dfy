/** Dispatching typed keys: input that can no longer match is replayed in greedy segments. */
module KeyDispatch {
  import opened Wrappers
  import opened KeyContexts
  import opened Keymaps

  /** A replayed segment is reported by its last keystroke and the bindings of the whole segment. */
  datatype Replay = Replay(keystroke: Keystroke, bindings: seq<nat>)

  datatype DispatchResult = DispatchResult(
    pending: seq<Keystroke>,
    pendingHasBinding: bool,
    bindings: seq<nat>,
    toReplay: seq<Replay>,
    contextStack: seq<KeyContext>)

  /** How input resolves while keymap and contexts stay as they are. The split below needs nothing more. */
  type Lookup = seq<Keystroke> -> Resolution

  function LookupIn(bs: seq<KeyBinding>, contexts: seq<KeyContext>): Lookup {
    input => Resolve(bs, input, contexts)
  }

  predicate Bound(lookup: Lookup, input: seq<Keystroke>) {
    lookup(input).found != []
  }

  predicate Waits(lookup: Lookup, input: seq<Keystroke>) {
    lookup(input).pending
  }

  // ----- the specification of the split -----

  ghost function Concat(segments: seq<seq<Keystroke>>): seq<Keystroke> {
    if segments == [] then [] else segments[0] + Concat(segments[1..])
  }

  /** The length of the longest bound prefix of at most `n` keystrokes, 0 if none is bound. */
  ghost function LongestBound(lookup: Lookup, input: seq<Keystroke>, n: nat): (len: nat)
    requires n <= |input|
    ensures len <= n
  {
    if n == 0 then 0
    else if Bound(lookup, input[..n]) then n
    else LongestBound(lookup, input, n - 1)
  }

  ghost function SegmentLength(lookup: Lookup, input: seq<Keystroke>): (len: nat)
    requires input != []
    ensures 1 <= len <= |input|
  {
    var len := LongestBound(lookup, input, |input|);
    if len == 0 then 1 else len
  }

  /** Everything is given up: the input falls into segments. */
  ghost function Segments(lookup: Lookup, input: seq<Keystroke>): seq<seq<Keystroke>>
    decreases |input|
  {
    if input == [] then []
    else
      var n := SegmentLength(lookup, input);
      [input[..n]] + Segments(lookup, input[n..])
  }

  datatype Split = Split(segments: seq<seq<Keystroke>>, last: seq<Keystroke>)

  /** A new key arrives: segments of the earlier input are given up until what is left
      together with the key waits, is bound, or is the key alone. */
  ghost function SplitAt(lookup: Lookup, input: seq<Keystroke>, key: Keystroke): Split
    decreases |input|
  {
    var whole := input + [key];
    if Waits(lookup, whole) || Bound(lookup, whole) || input == [] then Split([], whole)
    else
      var n := SegmentLength(lookup, input);
      var rest := SplitAt(lookup, input[n..], key);
      Split([input[..n]] + rest.segments, rest.last)
  }

  ghost function ReplayOf(lookup: Lookup, segment: seq<Keystroke>): Replay
    requires segment != []
  {
    Replay(segment[|segment| - 1], lookup(segment).found)
  }

  ghost predicate Replays(lookup: Lookup, segments: seq<seq<Keystroke>>,
                          replays: seq<Replay>)
  {
    && |segments| == |replays|
    && forall i :: 0 <= i < |segments| ==> segments[i] != [] && replays[i] == ReplayOf(lookup, segments[i])
  }

  // ----- the operations -----

  method BindingsForInput(keymap: Keymap, contexts: seq<KeyContext>, input: seq<Keystroke>)
    returns (found: seq<nat>, pending: bool)
    ensures Resolution(found, pending) == LookupIn(keymap.bindings, contexts)(input)
  {
    found, pending := keymap.BindingsForInput(input, contexts);
  }

  /** Searches for the longest bound prefix, from the whole input down; empty if no prefix is bound. */
  method ReplayLongest(keymap: Keymap, contexts: seq<KeyContext>, input: seq<Keystroke>, ghost lookup: Lookup)
    returns (rest: seq<Keystroke>, toReplay: seq<Replay>)
    requires lookup == LookupIn(keymap.bindings, contexts)
    ensures var n := LongestBound(lookup, input, |input|);
            rest == input[n..] && toReplay == if n == 0 then [] else [ReplayOf(lookup, input[..n])]
  {
    for last := |input| downto 0
      invariant LongestBound(lookup, input, last) == LongestBound(lookup, input, |input|)
    {
      var bindings, _ := BindingsForInput(keymap, contexts, input[..last + 1]);
      if bindings != [] {
        assert LongestBound(lookup, input, last + 1) == last + 1;
        return input[last + 1..], [Replay(input[last], bindings)];
      }
    }
    return input, [];
  }

  /** Takes the longest bound prefix off the input, or its first keystroke if no prefix is bound.
      The empty input would panic. */
  method ReplayPrefix(keymap: Keymap, contexts: seq<KeyContext>, input: seq<Keystroke>, ghost lookup: Lookup)
    returns (rest: seq<Keystroke>, toReplay: seq<Replay>)
    requires input != [] && lookup == LookupIn(keymap.bindings, contexts)
    ensures var n := SegmentLength(lookup, input);
            rest == input[n..] && toReplay == [ReplayOf(lookup, input[..n])]
  {
    rest, toReplay := ReplayLongest(keymap, contexts, input, lookup);
    if toReplay == [] {
      NothingBound(lookup, input, |input|);
      assert !Bound(lookup, input[..1]);
      toReplay := [Replay(input[0], [])];
      rest := input[1..];
    }
  }

  lemma {:induction false} ReplaysAdd(lookup: Lookup, a: seq<seq<Keystroke>>, b: seq<seq<Keystroke>>,
                                      p: seq<Replay>, q: seq<Replay>)
    requires Replays(lookup, a, p) && Replays(lookup, b, q)
    ensures Replays(lookup, a + b, p + q)
  {
  }

  method FlushDispatch(keymap: Keymap, contexts: seq<KeyContext>, input: seq<Keystroke>)
    returns (toReplay: seq<Replay>)
    requires input != []
    ensures Replays(LookupIn(keymap.bindings, contexts), Segments(LookupIn(keymap.bindings, contexts), input), toReplay)
    decreases |input|
  {
    ghost var lookup := LookupIn(keymap.bindings, contexts);
    ghost var n := SegmentLength(lookup, input);
    var suffix;
    suffix, toReplay := ReplayPrefix(keymap, contexts, input, lookup);
    assert Replays(lookup, [input[..n]], toReplay);
    if suffix != [] {
      var more := FlushDispatch(keymap, contexts, suffix);
      ReplaysAdd(lookup, [input[..n]], Segments(lookup, suffix), toReplay, more);
      toReplay := toReplay + more;
    }
  }

  /** The result is that of the split. */
  ghost predicate Dispatches(lookup: Lookup, split: Split, result: DispatchResult) {
    var resolved := lookup(split.last);
    && Replays(lookup, split.segments, result.toReplay)
    && (if resolved.pending then
          result.pending == split.last && result.bindings == [] && result.pendingHasBinding == (resolved.found != [])
        else
          result.pending == [] && result.bindings == resolved.found && !result.pendingHasBinding)
  }

  lemma {:induction false} DispatchesAfter(lookup: Lookup, segment: seq<Keystroke>, split: Split, replay: seq<Replay>,
                                           result: DispatchResult)
    requires Dispatches(lookup, split, result) && Replays(lookup, [segment], replay)
    ensures Dispatches(lookup, Split([segment] + split.segments, split.last),
                       result.(toReplay := replay + result.toReplay))
  {
    ReplaysAdd(lookup, [segment], split.segments, replay, result.toReplay);
  }

  method DispatchKey(keymap: Keymap, contexts: seq<KeyContext>, input: seq<Keystroke>, keystroke: Keystroke)
    returns (result: DispatchResult)
    ensures Dispatches(LookupIn(keymap.bindings, contexts),
                       SplitAt(LookupIn(keymap.bindings, contexts), input, keystroke),
                       result)
    ensures result.contextStack == contexts
    decreases |input|
  {
    ghost var lookup := LookupIn(keymap.bindings, contexts);
    var whole := input + [keystroke];
    var bindings, pending := BindingsForInput(keymap, contexts, whole);
    if pending {
      return DispatchResult(whole, bindings != [], [], [], contexts);
    } else if bindings != [] {
      return DispatchResult([], false, bindings, [], contexts);
    } else if |whole| == 1 {
      return DispatchResult([], false, [], [], contexts);
    }
    ghost var n := SegmentLength(lookup, input);
    var suffix, toReplay := ReplayPrefix(keymap, contexts, input, lookup);
    result := DispatchKey(keymap, contexts, suffix, keystroke);
    DispatchesAfter(lookup, input[..n], SplitAt(lookup, suffix, keystroke), toReplay, result);
    result := result.(toReplay := toReplay + result.toReplay);
  }

  // ----- what the split means -----

  lemma {:induction false} NothingBound(lookup: Lookup, input: seq<Keystroke>, n: nat)
    requires n <= |input| && LongestBound(lookup, input, n) == 0
    ensures forall k :: 1 <= k <= n ==> !Bound(lookup, input[..k])
  {
    if n > 0 {
      NothingBound(lookup, input, n - 1);
    }
  }

  lemma {:induction false} LongestBoundIsLongest(lookup: Lookup, input: seq<Keystroke>,
                                                 n: nat)
    requires n <= |input|
    ensures var len := LongestBound(lookup, input, n);
            && (len > 0 ==> Bound(lookup, input[..len]))
            && forall k :: len < k <= n ==> !Bound(lookup, input[..k])
  {
    if n > 0 && !Bound(lookup, input[..n]) {
      LongestBoundIsLongest(lookup, input, n - 1);
    }
  }

  /** The longest bound non-empty prefix of `remaining`, or its first keystroke if no prefix is bound. */
  ghost predicate IsGreedy(lookup: Lookup, segment: seq<Keystroke>,
                           remaining: seq<Keystroke>)
  {
    && segment != [] && segment <= remaining
    && (Bound(lookup, segment) || |segment| == 1)
    && forall k :: |segment| < k <= |remaining| ==> !Bound(lookup, remaining[..k])
  }

  ghost predicate AllGreedy(lookup: Lookup, segments: seq<seq<Keystroke>>) {
    forall i :: 0 <= i < |segments| ==> IsGreedy(lookup, segments[i], Concat(segments[i..]))
  }

  lemma {:induction false} GreedyFirst(lookup: Lookup, first: seq<Keystroke>, rest: seq<seq<Keystroke>>)
    requires AllGreedy(lookup, rest) && IsGreedy(lookup, first, first + Concat(rest))
    ensures AllGreedy(lookup, [first] + rest)
  {
    var segments := [first] + rest;
    assert segments[1..] == rest;
    forall i | 0 <= i < |segments| ensures IsGreedy(lookup, segments[i], Concat(segments[i..])) {
      if i == 0 {
        assert segments[0..] == segments;
      } else {
        assert segments[i..] == rest[i - 1..];
      }
    }
  }

  lemma {:induction false} SegmentsAreGreedy(lookup: Lookup, input: seq<Keystroke>)
    ensures var segments := Segments(lookup, input);
            && Concat(segments) == input
            && AllGreedy(lookup, segments)
    decreases |input|
  {
    if input != [] {
      var n := SegmentLength(lookup, input);
      LongestBoundIsLongest(lookup, input, |input|);
      SegmentsAreGreedy(lookup, input[n..]);
      var segments := Segments(lookup, input);
      var rest := Segments(lookup, input[n..]);
      assert segments[1..] == rest;
      assert input == input[..n] + input[n..];
      GreedyFirst(lookup, input[..n], rest);
    }
  }

  /** The i-th replayed segment is greedy with respect to all that was left, the new key included,
      which neither waited nor was bound. */
  ghost predicate StepIsGreedy(lookup: Lookup, split: Split, i: nat)
    requires i < |split.segments|
  {
    var remaining := Concat(split.segments[i..]) + split.last;
    && IsGreedy(lookup, split.segments[i], remaining)
    && !Waits(lookup, remaining) && !Bound(lookup, remaining)
  }

  /** The split loses and invents nothing: replayed segments and the last part make up the input and the key,
      and the last part ends in the key and waits, is bound, or is the key alone. */
  ghost predicate IsComplete(lookup: Lookup, split: Split, input: seq<Keystroke>, key: Keystroke) {
    && Concat(split.segments) + split.last == input + [key]
    && split.last != [] && split.last[|split.last| - 1] == key
    && (Waits(lookup, split.last) || Bound(lookup, split.last) || split.last == [key])
    && (forall i :: 0 <= i < |split.segments| ==> StepIsGreedy(lookup, split, i))
  }

  lemma {:induction false} SplitIsComplete(lookup: Lookup, input: seq<Keystroke>, key: Keystroke)
    ensures IsComplete(lookup, SplitAt(lookup, input, key), input, key)
    decreases |input|
  {
    var whole := input + [key];
    if !(Waits(lookup, whole) || Bound(lookup, whole) || input == []) {
      var n := SegmentLength(lookup, input);
      LongestBoundIsLongest(lookup, input, |input|);
      SplitIsComplete(lookup, input[n..], key);
      CompleteGrows(lookup, SplitAt(lookup, input[n..], key), input, key, n);
    }
  }

  lemma CompleteGrows(lookup: Lookup, rest: Split, input: seq<Keystroke>, key: Keystroke, n: nat)
    requires 1 <= n <= |input| && IsComplete(lookup, rest, input[n..], key)
    requires !Waits(lookup, input + [key]) && !Bound(lookup, input + [key])
    requires Bound(lookup, input[..n]) || n == 1
    requires forall k :: n < k <= |input| ==> !Bound(lookup, input[..k])
    ensures IsComplete(lookup, Split([input[..n]] + rest.segments, rest.last), input, key)
  {
    var split := Split([input[..n]] + rest.segments, rest.last);
    var whole := input + [key];
    assert split.segments[1..] == rest.segments;
    assert whole == input[..n] + (input[n..] + [key]);
    assert Concat(split.segments) + split.last == whole;
    forall i | 0 <= i < |split.segments|
      ensures StepIsGreedy(lookup, split, i)
    {
      if i == 0 {
        assert split.segments[0..] == split.segments;
        forall k | n < k <= |whole|
          ensures !Bound(lookup, whole[..k])
        {
          assert whole[..k] == if k <= |input| then input[..k] else whole;
        }
      } else {
        assert split.segments[i..] == rest.segments[i - 1..];
        assert StepIsGreedy(lookup, rest, i - 1);
      }
    }
  }

  // ----- whole typing sessions -----

  datatype Event = Key(keystroke: Keystroke) | Timeout

  /** What the window keeps between events, and the segments handled so far. */
  datatype Session = Session(pending: seq<Keystroke>, handled: seq<seq<Keystroke>>)

  ghost function Step(lookup: Lookup, s: Session, e: Event): Session {
    match e
    case Key(key) =>
      var split := SplitAt(lookup, s.pending, key);
      if Waits(lookup, split.last) then Session(split.last, s.handled + split.segments)
      else Session([], s.handled + split.segments + [split.last])
    case Timeout => Session([], s.handled + Segments(lookup, s.pending))
  }

  ghost function Run(lookup: Lookup, events: seq<Event>): Session {
    if events == [] then Session([], [])
    else Step(lookup, Run(lookup, events[..|events| - 1]), events[|events| - 1])
  }

  ghost function Typed(events: seq<Event>): seq<Keystroke> {
    if events == [] then []
    else
      var n := |events| - 1;
      Typed(events[..n]) + KeyOf(events[n])
  }

  lemma {:induction false} KeysAssociate(a: seq<Keystroke>, b: seq<Keystroke>, c: seq<Keystroke>)
    ensures a + (b + c) == a + b + c
  {
  }

  lemma {:induction false} ConcatAppend(a: seq<seq<Keystroke>>, b: seq<seq<Keystroke>>)
    ensures Concat(a + b) == Concat(a) + Concat(b)
  {
    if a == [] {
      assert a + b == b;
    } else {
      ConcatAppend(a[1..], b);
      assert (a + b)[1..] == a[1..] + b;
      KeysAssociate(a[0], Concat(a[1..]), Concat(b));
    }
  }

  ghost function KeyOf(e: Event): seq<Keystroke> {
    match e
    case Key(key) => [key]
    case Timeout => []
  }

  lemma SplitConcat(lookup: Lookup, input: seq<Keystroke>, key: Keystroke)
    ensures var split := SplitAt(lookup, input, key);
            Concat(split.segments) + split.last == input + [key]
  {
    SplitIsComplete(lookup, input, key);
  }

  lemma Regroup(a: seq<Keystroke>, b: seq<Keystroke>, c: seq<Keystroke>, d: seq<Keystroke>, e: seq<Keystroke>)
    requires b + c == d + e
    ensures (a + b) + c == (a + d) + e
  {
    assert (a + b) + c == a + (b + c);
    assert (a + d) + e == a + (d + e);
  }

  lemma StepConservesKeys(lookup: Lookup, s: Session, e: Event)
    ensures var s' := Step(lookup, s, e);
            && Concat(s'.handled) + s'.pending == Concat(s.handled) + s.pending + KeyOf(e)
            && (s'.pending != [] ==> Waits(lookup, s'.pending))
  {
    match e
    case Key(key) =>
      var split := SplitAt(lookup, s.pending, key);
      SplitConcat(lookup, s.pending, key);
      ConcatAppend(s.handled, split.segments);
      Regroup(Concat(s.handled), Concat(split.segments), split.last, s.pending, [key]);
      if !Waits(lookup, split.last) {
        ConcatAppend(s.handled + split.segments, [split.last]);
        assert Concat([split.last]) == split.last + Concat([]);
      }
    case Timeout =>
      SegmentsAreGreedy(lookup, s.pending);
      ConcatAppend(s.handled, Segments(lookup, s.pending));
  }

  /** Over any session every key typed is handled exactly once and in order, or still pending,
      and only input that may yet match is pending. */
  lemma {:induction false} SessionConservesKeys(lookup: Lookup, events: seq<Event>)
    ensures var s := Run(lookup, events);
            && Concat(s.handled) + s.pending == Typed(events)
            && (s.pending != [] ==> Waits(lookup, s.pending))
  {
    if events != [] {
      var n := |events| - 1;
      SessionConservesKeys(lookup, events[..n]);
      StepConservesKeys(lookup, Run(lookup, events[..n]), events[n]);
    }
  }

  /** Pending input is shorter than some binding, so it cannot grow without end. */
  lemma WaitingIsBounded(bs: seq<KeyBinding>, contexts: seq<KeyContext>, input: seq<Keystroke>)
    requires Waits(LookupIn(bs, contexts), input)
    ensures exists ix :: 0 <= ix < |bs| && |input| < |bs[ix].keystrokes| && bs[ix].action.Custom?
  {
    ResolvePendingMeaning(bs, input, contexts);
  }

  // ----- the bindings to show for an action -----

  /** The binding is the first one its own keystrokes resolve to. */
  predicate NotShadowed(bs: seq<KeyBinding>, lookup: Lookup, ix: nat)
    requires ix < |bs|
  {
    var found := lookup(bs[ix].keystrokes).found;
    found != [] && found[0] < |bs| && bs[found[0]].action == bs[ix].action
  }

  /** The bound check above never decides: what a keymap resolves to is always one of its bindings. */
  lemma ResolvedInRange(bs: seq<KeyBinding>, contexts: seq<KeyContext>, input: seq<Keystroke>)
    ensures var found := LookupIn(bs, contexts)(input).found; found != [] ==> found[0] < |bs|
  {
    ResolveFindsReturned(bs, input, contexts);
    var found := LookupIn(bs, contexts)(input).found;
    assert found != [] ==> found[0] in found;
  }

  function FilterVisible(bs: seq<KeyBinding>, lookup: Lookup, ixs: seq<nat>): (r: seq<nat>)
    requires forall k :: 0 <= k < |ixs| ==> ixs[k] < |bs|
  {
    if ixs == [] then []
    else
      var n := |ixs| - 1;
      var rest := FilterVisible(bs, lookup, ixs[..n]);
      if NotShadowed(bs, lookup, ixs[n]) then rest + [ixs[n]] else rest
  }

  lemma {:induction false} FilterVisibleGrows(bs: seq<KeyBinding>, lookup: Lookup, ixs: seq<nat>, i: nat)
    requires (forall k :: 0 <= k < |ixs| ==> ixs[k] < |bs|) && i < |ixs|
    ensures FilterVisible(bs, lookup, ixs[..i + 1])
            == if NotShadowed(bs, lookup, ixs[i]) then FilterVisible(bs, lookup, ixs[..i]) + [ixs[i]]
               else FilterVisible(bs, lookup, ixs[..i])
  {
    assert ixs[..i + 1][..i] == ixs[..i];
  }

  lemma {:induction false} FilterVisibleIsFilter(bs: seq<KeyBinding>, lookup: Lookup, ixs: seq<nat>)
    requires forall k :: 0 <= k < |ixs| ==> ixs[k] < |bs|
    requires Ascending(ixs)
    ensures Ascending(FilterVisible(bs, lookup, ixs))
    ensures forall ix: nat :: ix in FilterVisible(bs, lookup, ixs) <==>
              ix in ixs && ix < |bs| && NotShadowed(bs, lookup, ix)
  {
    if ixs != [] {
      var n := |ixs| - 1;
      FilterVisibleIsFilter(bs, lookup, ixs[..n]);
      var rest := FilterVisible(bs, lookup, ixs[..n]);
      forall k | 0 <= k < |rest|
        ensures rest[k] < ixs[n]
      {
        assert rest[k] in ixs[..n];
      }
      assert forall x :: x in ixs <==> x == ixs[n] || x in ixs[..n];
    }
  }

  method IsVisible(keymap: Keymap, contexts: seq<KeyContext>, ix: nat) returns (r: bool)
    requires ix < |keymap.bindings|
    ensures r == NotShadowed(keymap.bindings, LookupIn(keymap.bindings, contexts), ix)
  {
    var found, _ := keymap.BindingsForInput(keymap.bindings[ix].keystrokes, contexts);
    ResolvedInRange(keymap.bindings, contexts, keymap.bindings[ix].keystrokes);
    r := found != [] && keymap.bindings[found[0]].action == keymap.bindings[ix].action;
  }

  /** The listing for an action, without what is shadowed in these contexts. */
  ghost function VisibleForAction(keymap: Keymap, action: Action, contexts: seq<KeyContext>): seq<nat>
    requires keymap.Valid()
    reads keymap
  {
    ListedInRange(keymap.bindings, action, keymap.BindingsForAction(action));
    FilterVisible(keymap.bindings, LookupIn(keymap.bindings, contexts), keymap.BindingsForAction(action))
  }

  lemma ListedInRange(bs: seq<KeyBinding>, action: Action, ixs: seq<nat>)
    requires forall ix: nat :: ix in ixs <==> ListedFor(bs, action, ix)
    ensures forall k :: 0 <= k < |ixs| ==> ixs[k] < |bs|
  {
    forall k | 0 <= k < |ixs|
      ensures ixs[k] < |bs|
    {
      assert ixs[k] in ixs;
    }
  }

  method KeepVisible(keymap: Keymap, contexts: seq<KeyContext>, ixs: seq<nat>) returns (r: seq<nat>)
    requires forall k :: 0 <= k < |ixs| ==> ixs[k] < |keymap.bindings|
    ensures r == FilterVisible(keymap.bindings, LookupIn(keymap.bindings, contexts), ixs)
  {
    r := [];
    ghost var lookup := LookupIn(keymap.bindings, contexts);
    for i := 0 to |ixs|
      invariant r == FilterVisible(keymap.bindings, lookup, ixs[..i])
    {
      assert ixs[..i + 1][..i] == ixs[..i];
      var visible := IsVisible(keymap, contexts, ixs[i]);
      if visible {
        r := r + [ixs[i]];
      }
    }
    assert ixs[..|ixs|] == ixs;
  }

  method LastVisible(keymap: Keymap, contexts: seq<KeyContext>, ixs: seq<nat>) returns (r: Option<nat>)
    requires forall k :: 0 <= k < |ixs| ==> ixs[k] < |keymap.bindings|
    ensures var all := FilterVisible(keymap.bindings, LookupIn(keymap.bindings, contexts), ixs);
            r == if all == [] then None else Some(all[|all| - 1])
  {
    ghost var lookup := LookupIn(keymap.bindings, contexts);
    assert ixs[..|ixs|] == ixs;
    for i := |ixs| downto 0
      invariant FilterVisible(keymap.bindings, lookup, ixs) == FilterVisible(keymap.bindings, lookup, ixs[..i])
    {
      FilterVisibleGrows(keymap.bindings, lookup, ixs, i);
      var visible := IsVisible(keymap, contexts, ixs[i]);
      if visible {
        return Some(ixs[i]);
      }
    }
    return None;
  }

  method BindingsForAction(keymap: Keymap, action: Action, contexts: seq<KeyContext>) returns (r: seq<nat>)
    requires keymap.Valid()
    ensures r == VisibleForAction(keymap, action, contexts)
  {
    var ixs := keymap.BindingsForAction(action);
    ListedInRange(keymap.bindings, action, ixs);
    r := KeepVisible(keymap, contexts, ixs);
  }

  /** Searching from the end finds the last binding the full listing would give, if there is any. */
  method HighestPrecedenceBindingForAction(keymap: Keymap, action: Action, contexts: seq<KeyContext>)
    returns (r: Option<nat>)
    requires keymap.Valid()
    ensures var all := VisibleForAction(keymap, action, contexts);
            r == if all == [] then None else Some(all[|all| - 1])
  {
    var ixs := keymap.BindingsForAction(action);
    ListedInRange(keymap.bindings, action, ixs);
    r := LastVisible(keymap, contexts, ixs);
  }
}

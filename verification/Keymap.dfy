/** The keymap: bindings in the order they were added, an index of them by action type,
    and the resolution of typed input to bindings. */
module Keymaps {
  import opened Wrappers
  import opened KeyContexts

  datatype Modifiers = Modifiers(control: bool, alt: bool, shift: bool, platform: bool, function_: bool)

  datatype Keystroke = Keystroke(modifiers: Modifiers, key: string, keyChar: Option<string>)

  /** Whether a typed keystroke matches one in the keymap, directly or by the character it produced
      (the rule of every platform but Windows). */
  predicate ShouldMatch(typed: Keystroke, target: Keystroke) {
    || (&& typed.keyChar.Some?
        && typed.keyChar.value != typed.key
        && target.key == typed.keyChar.value
        && target.modifiers == Modifiers(typed.modifiers.control, false, false, typed.modifiers.platform, false))
    || (target.modifiers == typed.modifiers && target.key == typed.key)
  }

  /** The run-time type of an action. */
  datatype ActionType = NoActionType | UnbindType | CustomType(id: nat, name: string)

  /** `NoAction` removes bindings, `Unbind` removes those of the named action, anything else is real. */
  datatype Action = NoAction | Unbind(target: string) | Custom(id: nat, name: string, data: nat) {
    function Type(): ActionType {
      match this
      case NoAction => NoActionType
      case Unbind(_) => UnbindType
      case Custom(id, name, _) => CustomType(id, name)
    }

    function Name(): string {
      match this
      case NoAction => "zed::NoAction"
      case Unbind(_) => "zed::Unbind"
      case Custom(_, name, _) => name
    }
  }

  datatype KeyBinding = KeyBinding(action: Action, keystrokes: seq<Keystroke>, context: Option<Predicate>,
                                   meta: Option<nat>)
  {
    /** None: no match; Some(false): a full match; Some(true): the input is a proper prefix. */
    function MatchKeystrokes(typed: seq<Keystroke>): Option<bool> {
      if |keystrokes| < |typed| || exists k :: 0 <= k < |typed| && !ShouldMatch(typed[k], keystrokes[k]) then None
      else Some(|keystrokes| > |typed|)
    }

    /** The deepest depth at which the binding applies; without a predicate, the whole stack. */
    function Enabled(contexts: seq<KeyContext>): Option<nat> {
      match context
      case None => Some(|contexts|)
      case Some(p) => DepthOf(p, contexts)
    }

    /** A removal that ends the search: one with no source recorded, or of the user's own. */
    predicate EndsSearch() {
      action.NoAction? && (meta.None? || meta.value == 0)
    }
  }

  predicate MatchesContext(disabled: KeyBinding, binding: KeyBinding) {
    match (disabled.context, binding.context)
    case (None, _) => true
    case (Some(_), None) => false
    case (Some(d), Some(p)) => IsSuperset(d, p)
  }

  predicate IsUnbound(disabled: KeyBinding, binding: KeyBinding) {
    && disabled.keystrokes == binding.keystrokes
    && disabled.action.Unbind?
    && disabled.action.target == binding.action.Name()
  }

  // ----- resolving input -----

  /** A full match found at a depth. */
  datatype Entry = Entry(depth: nat, ix: nat)

  /** Deeper first; at equal depth, added later first. */
  predicate Precedes(a: Entry, b: Entry) {
    a.depth > b.depth || (a.depth == b.depth && a.ix > b.ix)
  }

  ghost predicate FullMatch(bs: seq<KeyBinding>, input: seq<Keystroke>, contexts: seq<KeyContext>, e: Entry) {
    && e.ix < |bs|
    && bs[e.ix].Enabled(contexts) == Some(e.depth)
    && bs[e.ix].MatchKeystrokes(input) == Some(false)
  }

  ghost predicate PrefixMatch(bs: seq<KeyBinding>, input: seq<Keystroke>, contexts: seq<KeyContext>, ix: nat) {
    && ix < |bs|
    && bs[ix].Enabled(contexts).Some?
    && bs[ix].MatchKeystrokes(input) == Some(true)
  }

  /** Full matches among the first `n` bindings, the latest first. */
  function Matched(bs: seq<KeyBinding>, input: seq<Keystroke>, contexts: seq<KeyContext>, n: nat): seq<Entry>
    requires n <= |bs|
  {
    if n == 0 then []
    else
      var rest := Matched(bs, input, contexts, n - 1);
      var depth := bs[n - 1].Enabled(contexts);
      if depth.Some? && bs[n - 1].MatchKeystrokes(input) == Some(false) then [Entry(depth.value, n - 1)] + rest
      else rest
  }

  /** Prefix matches among the first `n` bindings, the latest first. */
  function Pending(bs: seq<KeyBinding>, input: seq<Keystroke>, contexts: seq<KeyContext>, n: nat): seq<nat>
    requires n <= |bs|
  {
    if n == 0 then []
    else
      var rest := Pending(bs, input, contexts, n - 1);
      if bs[n - 1].Enabled(contexts).Some? && bs[n - 1].MatchKeystrokes(input) == Some(true) then [n - 1] + rest
      else rest
  }

  function InsertSorted(e: Entry, es: seq<Entry>): seq<Entry> {
    if es == [] || Precedes(e, es[0]) then [e] + es
    else [es[0]] + InsertSorted(e, es[1..])
  }

  function SortEntries(es: seq<Entry>): seq<Entry> {
    if es == [] then [] else InsertSorted(es[0], SortEntries(es[1..]))
  }

  /** Walks the sorted matches: removals end the search or are skipped, unbinds are collected,
      and what an earlier unbind names is left out. */
  function Survivors(bs: seq<KeyBinding>, es: seq<Entry>, unbound: seq<nat>): seq<nat>
    requires forall k :: 0 <= k < |es| ==> es[k].ix < |bs|
    requires forall k :: 0 <= k < |unbound| ==> unbound[k] < |bs|
  {
    if es == [] then []
    else
      var ix := es[0].ix;
      if bs[ix].action.NoAction? then
        if bs[ix].EndsSearch() then [] else Survivors(bs, es[1..], unbound)
      else if bs[ix].action.Unbind? then Survivors(bs, es[1..], unbound + [ix])
      else if exists k :: 0 <= k < |unbound| && IsUnbound(bs[unbound[k]], bs[ix]) then Survivors(bs, es[1..], unbound)
      else [ix] + Survivors(bs, es[1..], unbound)
  }

  /** The keystroke sequences still waiting after the prefix matches `ps`, listed latest first,
      have been taken in the order they were added. */
  function PendingKeys(bs: seq<KeyBinding>, ps: seq<nat>, first: Option<nat>): set<seq<Keystroke>>
    requires forall k :: 0 <= k < |ps| ==> ps[k] < |bs|
  {
    if ps == [] then {}
    else
      var before := PendingKeys(bs, ps[1..], first);
      var ix := ps[0];
      if first.Some? && first.value > ix then before
      else if !bs[ix].action.Custom? then before - {bs[ix].keystrokes}
      else before + {bs[ix].keystrokes}
  }

  /** The positions of the bindings that apply, in precedence order, and whether longer input may match. */
  datatype Resolution = Resolution(found: seq<nat>, pending: bool)

  function Resolve(bs: seq<KeyBinding>, input: seq<Keystroke>, contexts: seq<KeyContext>): Resolution {
    MatchedIsExact(bs, input, contexts, |bs|);
    SortIsExact(Matched(bs, input, contexts, |bs|));
    PendingIsExact(bs, input, contexts, |bs|);
    var found := Survivors(bs, SortEntries(Matched(bs, input, contexts, |bs|)), []);
    var first := if found == [] then None else Some(found[0]);
    var ps := Pending(bs, input, contexts, |bs|);
    assert forall k :: 0 <= k < |ps| ==> ps[k] in ps;
    Resolution(found, PendingKeys(bs, ps, first) != {})
  }

  lemma {:induction false} MatchedIsExact(bs: seq<KeyBinding>, input: seq<Keystroke>, contexts: seq<KeyContext>, n: nat)
    requires n <= |bs|
    ensures forall e :: e in Matched(bs, input, contexts, n) <==> e.ix < n && FullMatch(bs, input, contexts, e)
  {
    if n > 0 {
      MatchedIsExact(bs, input, contexts, n - 1);
    }
  }

  lemma {:induction false} PendingIsExact(bs: seq<KeyBinding>, input: seq<Keystroke>, contexts: seq<KeyContext>, n: nat)
    requires n <= |bs|
    ensures forall ix: nat :: ix in Pending(bs, input, contexts, n) <==> ix < n && PrefixMatch(bs, input, contexts, ix)
    ensures Descending(Pending(bs, input, contexts, n))
  {
    if n > 0 {
      PendingIsExact(bs, input, contexts, n - 1);
      var rest := Pending(bs, input, contexts, n - 1);
      forall k | 0 <= k < |rest|
        ensures rest[k] < n - 1
      {
        assert rest[k] in rest;
      }
    }
  }

  ghost predicate Descending(s: seq<nat>) {
    forall j, k :: 0 <= j < k < |s| ==> s[j] > s[k]
  }

  lemma {:induction false} InsertIsExact(e: Entry, es: seq<Entry>)
    ensures forall x :: x in InsertSorted(e, es) <==> x == e || x in es
  {
    if es != [] && !Precedes(e, es[0]) {
      InsertIsExact(e, es[1..]);
    }
  }

  lemma {:induction false} SortIsExact(es: seq<Entry>)
    ensures forall x :: x in SortEntries(es) <==> x in es
  {
    if es != [] {
      SortIsExact(es[1..]);
      InsertIsExact(es[0], SortEntries(es[1..]));
    }
  }

  // ----- what the resolution means -----

  /** Enabled in these contexts and matching the whole input. */
  ghost predicate Applies(bs: seq<KeyBinding>, input: seq<Keystroke>, contexts: seq<KeyContext>, ix: nat) {
    && ix < |bs|
    && bs[ix].Enabled(contexts).Some?
    && FullMatch(bs, input, contexts, Entry(bs[ix].Enabled(contexts).value, ix))
  }

  ghost predicate Outranks(bs: seq<KeyBinding>, contexts: seq<KeyContext>, a: nat, b: nat) {
    && a < |bs| && bs[a].Enabled(contexts).Some?
    && b < |bs| && bs[b].Enabled(contexts).Some?
    && Precedes(Entry(bs[a].Enabled(contexts).value, a), Entry(bs[b].Enabled(contexts).value, b))
  }

  /** The declarative meaning of the answer: a real binding that applies, unless something of higher
      precedence that applies as well ends the search or unbinds it by name. */
  ghost predicate Returned(bs: seq<KeyBinding>, input: seq<Keystroke>, contexts: seq<KeyContext>, ix: nat) {
    && Applies(bs, input, contexts, ix)
    && bs[ix].action.Custom?
    && forall j: nat :: Applies(bs, input, contexts, j) && Outranks(bs, contexts, j, ix) ==>
         !bs[j].EndsSearch() && !IsUnbound(bs[j], bs[ix])
  }

  ghost predicate Sorted(es: seq<Entry>) {
    forall j, k :: 0 <= j < k < |es| ==> Precedes(es[j], es[k])
  }

  ghost predicate DifferentBindings(es: seq<Entry>) {
    forall j, k :: 0 <= j < k < |es| ==> es[j].ix != es[k].ix
  }

  lemma {:induction false} MatchedAreDifferent(bs: seq<KeyBinding>, input: seq<Keystroke>, contexts: seq<KeyContext>,
                                               n: nat)
    requires n <= |bs|
    ensures DifferentBindings(Matched(bs, input, contexts, n))
  {
    if n > 0 {
      MatchedAreDifferent(bs, input, contexts, n - 1);
      MatchedIsExact(bs, input, contexts, n - 1);
      var rest := Matched(bs, input, contexts, n - 1);
      forall k | 0 <= k < |rest|
        ensures rest[k].ix < n - 1
      {
        assert rest[k] in rest;
      }
    }
  }

  lemma {:induction false} InsertKeepsSorted(e: Entry, es: seq<Entry>)
    requires Sorted(es) && forall k :: 0 <= k < |es| ==> es[k].ix != e.ix
    ensures Sorted(InsertSorted(e, es))
  {
    if es != [] && !Precedes(e, es[0]) {
      InsertKeepsSorted(e, es[1..]);
      InsertIsExact(e, es[1..]);
      var rest := InsertSorted(e, es[1..]);
      forall k | 0 <= k < |rest|
        ensures Precedes(es[0], rest[k])
      {
        assert rest[k] in rest;
      }
    }
  }

  lemma {:induction false} SortIsSorted(es: seq<Entry>)
    requires DifferentBindings(es)
    ensures Sorted(SortEntries(es))
  {
    if es != [] {
      SortIsSorted(es[1..]);
      SortIsExact(es[1..]);
      var rest := SortEntries(es[1..]);
      forall k | 0 <= k < |rest|
        ensures rest[k].ix != es[0].ix
      {
        assert rest[k] in rest;
      }
      InsertKeepsSorted(es[0], rest);
    }
  }

  /** The k-th sorted match survives: it is real, no earlier one ends the search and none unbinds it. */
  ghost predicate Kept(bs: seq<KeyBinding>, es: seq<Entry>, unbound: seq<nat>, k: nat)
    requires forall k :: 0 <= k < |es| ==> es[k].ix < |bs|
    requires forall k :: 0 <= k < |unbound| ==> unbound[k] < |bs|
  {
    && k < |es|
    && bs[es[k].ix].action.Custom?
    && (forall u :: 0 <= u < |unbound| ==> !IsUnbound(bs[unbound[u]], bs[es[k].ix]))
    && (forall j :: 0 <= j < k ==> !bs[es[j].ix].EndsSearch() && !IsUnbound(bs[es[j].ix], bs[es[k].ix]))
  }

  lemma {:induction false} SurvivorsAreKept(bs: seq<KeyBinding>, es: seq<Entry>, unbound: seq<nat>, ix: nat)
    requires forall k :: 0 <= k < |es| ==> es[k].ix < |bs|
    requires forall k :: 0 <= k < |unbound| ==> unbound[k] < |bs| && bs[unbound[k]].action.Unbind?
    ensures ix in Survivors(bs, es, unbound) <==>
            exists k :: 0 <= k < |es| && es[k].ix == ix && Kept(bs, es, unbound, k)
  {
    if es != [] {
      var rest, here := es[1..], es[0].ix;
      var unbound' := if bs[here].action.Unbind? then unbound + [here] else unbound;
      if !bs[here].EndsSearch() {
        SurvivorsAreKept(bs, rest, unbound', ix);
        forall k | 0 < k < |es|
          ensures Kept(bs, es, unbound, k) <==> Kept(bs, rest, unbound', k - 1)
        {
          KeptShifts(bs, es, unbound, k);
        }
        if ix in Survivors(bs, rest, unbound') {
          var k :| 0 <= k < |rest| && rest[k].ix == ix && Kept(bs, rest, unbound', k);
          assert Kept(bs, es, unbound, k + 1);
        }
        if k :| 0 < k < |es| && es[k].ix == ix && Kept(bs, es, unbound, k) {
          assert rest[k - 1].ix == ix && Kept(bs, rest, unbound', k - 1);
        }
        assert es[0].ix == here;
      }
    }
  }

  lemma KeptShifts(bs: seq<KeyBinding>, es: seq<Entry>, unbound: seq<nat>, k: nat)
    requires forall k :: 0 <= k < |es| ==> es[k].ix < |bs|
    requires forall k :: 0 <= k < |unbound| ==> unbound[k] < |bs|
    requires 0 < k < |es| && !bs[es[0].ix].EndsSearch()
    ensures Kept(bs, es, unbound, k) <==>
            Kept(bs, es[1..], if bs[es[0].ix].action.Unbind? then unbound + [es[0].ix] else unbound, k - 1)
  {
    var unbound' := if bs[es[0].ix].action.Unbind? then unbound + [es[0].ix] else unbound;
    var rest := es[1..];
    if Kept(bs, es, unbound, k) {
      assert forall j :: 0 <= j < k - 1 ==> rest[j] == es[j + 1];
      assert Kept(bs, rest, unbound', k - 1);
    }
    if Kept(bs, rest, unbound', k - 1) {
      forall j | 0 <= j < k
        ensures !bs[es[j].ix].EndsSearch() && !IsUnbound(bs[es[j].ix], bs[es[k].ix])
      {
        if j > 0 {
          assert rest[j - 1] == es[j];
        } else if bs[es[0].ix].action.Unbind? {
          assert unbound'[|unbound|] == es[0].ix;
        }
      }
      forall u | 0 <= u < |unbound|
        ensures !IsUnbound(bs[unbound[u]], bs[es[k].ix])
      {
        assert unbound'[u] == unbound[u];
      }
    }
  }

  ghost predicate Listed(es: seq<Entry>, r: seq<nat>) {
    forall k :: 0 <= k < |r| ==> exists j :: 0 <= j < |es| && es[j].ix == r[k]
  }

  /** Each position outranks all that follow. */
  ghost predicate Falling(bs: seq<KeyBinding>, contexts: seq<KeyContext>, r: seq<nat>) {
    forall j, k :: 0 <= j < k < |r| ==> Outranks(bs, contexts, r[j], r[k])
  }

  lemma {:induction false} SurvivorsFollowOrder(bs: seq<KeyBinding>, es: seq<Entry>, unbound: seq<nat>,
                                                contexts: seq<KeyContext>)
    requires forall k :: 0 <= k < |es| ==> es[k].ix < |bs| && bs[es[k].ix].Enabled(contexts) == Some(es[k].depth)
    requires forall k :: 0 <= k < |unbound| ==> unbound[k] < |bs|
    requires Sorted(es)
    ensures Listed(es, Survivors(bs, es, unbound)) && Falling(bs, contexts, Survivors(bs, es, unbound))
  {
    if es != [] {
      var rest, here := es[1..], es[0].ix;
      var unbound' := if bs[here].action.Unbind? then unbound + [here] else unbound;
      SurvivorsFollowOrder(bs, rest, unbound', contexts);
      var tail := Survivors(bs, rest, unbound');
      forall k | 0 <= k < |tail|
        ensures Outranks(bs, contexts, here, tail[k])
        ensures exists j :: 0 <= j < |es| && es[j].ix == tail[k]
      {
        var j :| 0 <= j < |rest| && rest[j].ix == tail[k];
        assert es[j + 1] == rest[j];
        assert Precedes(es[0], es[j + 1]);
      }
      assert es[0].ix == here;
    }
  }

  /** The bindings returned are exactly the declarative ones, in strictly falling precedence. */
  lemma ResolveFindsReturned(bs: seq<KeyBinding>, input: seq<Keystroke>, contexts: seq<KeyContext>)
    ensures var found := Resolve(bs, input, contexts).found;
            && (forall ix: nat :: ix in found <==> Returned(bs, input, contexts, ix))
            && Falling(bs, contexts, found)
  {
    var matched := Matched(bs, input, contexts, |bs|);
    MatchedIsExact(bs, input, contexts, |bs|);
    MatchedAreDifferent(bs, input, contexts, |bs|);
    SortIsExact(matched);
    SortIsSorted(matched);
    var es := SortEntries(matched);
    assert forall k :: 0 <= k < |es| ==> es[k] in es;
    SurvivorsFollowOrder(bs, es, [], contexts);
    forall ix: nat
      ensures ix in Survivors(bs, es, []) <==> Returned(bs, input, contexts, ix)
    {
      SurvivorsAreKept(bs, es, [], ix);
      KeptIsReturned(bs, es, input, contexts, ix);
    }
  }

  lemma KeptIsReturned(bs: seq<KeyBinding>, es: seq<Entry>, input: seq<Keystroke>, contexts: seq<KeyContext>, ix: nat)
    requires forall e :: e in es <==> FullMatch(bs, input, contexts, e)
    requires forall k :: 0 <= k < |es| ==> es[k].ix < |bs|
    requires Sorted(es)
    ensures (exists k :: 0 <= k < |es| && es[k].ix == ix && Kept(bs, es, [], k)) <==> Returned(bs, input, contexts, ix)
  {
    if k :| 0 <= k < |es| && es[k].ix == ix && Kept(bs, es, [], k) {
      assert es[k] in es && FullMatch(bs, input, contexts, es[k]);
      forall j: nat | Applies(bs, input, contexts, j) && Outranks(bs, contexts, j, ix)
        ensures !bs[j].EndsSearch() && !IsUnbound(bs[j], bs[ix])
      {
        var e := Entry(bs[j].Enabled(contexts).value, j);
        assert e in es;
        var i :| 0 <= i < |es| && es[i] == e;
        assert i < k;
      }
    }
    if Returned(bs, input, contexts, ix) {
      var e := Entry(bs[ix].Enabled(contexts).value, ix);
      assert e in es;
      var k :| 0 <= k < |es| && es[k] == e;
      forall j | 0 <= j < k
        ensures !bs[es[j].ix].EndsSearch() && !IsUnbound(bs[es[j].ix], bs[ix])
      {
        assert es[j] in es && Precedes(es[j], es[k]);
        assert Applies(bs, input, contexts, es[j].ix);
        assert Outranks(bs, contexts, es[j].ix, ix);
      }
      assert Kept(bs, es, [], k);
    }
  }

  /** Keystrokes stay pending exactly when the last relevant prefix match with them is real. */
  lemma {:induction false} PendingKeysMeaning(bs: seq<KeyBinding>, ps: seq<nat>, first: Option<nat>,
                                              keys: seq<Keystroke>)
    requires forall k :: 0 <= k < |ps| ==> ps[k] < |bs|
    requires Descending(ps)
    ensures keys in PendingKeys(bs, ps, first) <==>
            exists ix :: && ix in ps && bs[ix].keystrokes == keys && bs[ix].action.Custom?
                         && (first.Some? ==> first.value <= ix)
                         && forall j :: j in ps && j > ix && bs[j].keystrokes == keys ==> bs[j].action.Custom?
  {
    if ps != [] {
      var rest, here := ps[1..], ps[0];
      PendingKeysMeaning(bs, rest, first, keys);
      assert forall x :: x in ps <==> x == here || x in rest;
      forall x | x in rest
        ensures x < here
      {
        var k :| 0 <= k < |rest| && rest[k] == x;
        assert ps[k + 1] == x;
      }
    }
  }

  /** Longer input may match exactly when some real prefix match, not below the first binding returned,
      has no later prefix match with the same keystrokes that removes it. */
  lemma ResolvePendingMeaning(bs: seq<KeyBinding>, input: seq<Keystroke>, contexts: seq<KeyContext>)
    ensures var r := Resolve(bs, input, contexts);
            r.pending <==>
            exists ix: nat ::
              && PrefixMatch(bs, input, contexts, ix) && bs[ix].action.Custom?
              && (r.found != [] ==> r.found[0] <= ix)
              && forall j: nat :: PrefixMatch(bs, input, contexts, j) && j > ix && bs[j].keystrokes == bs[ix].keystrokes
                             ==> bs[j].action.Custom?
  {
    var r := Resolve(bs, input, contexts);
    PendingIsExact(bs, input, contexts, |bs|);
    var ps := Pending(bs, input, contexts, |bs|);
    assert forall k :: 0 <= k < |ps| ==> ps[k] in ps;
    var first := if r.found == [] then None else Some(r.found[0]);
    if r.pending {
      var keys :| keys in PendingKeys(bs, ps, first);
      PendingKeysMeaning(bs, ps, first, keys);
    }
    if ix: nat :| && PrefixMatch(bs, input, contexts, ix) && bs[ix].action.Custom?
                  && (r.found != [] ==> r.found[0] <= ix)
                  && forall j: nat ::
                       PrefixMatch(bs, input, contexts, j) && j > ix && bs[j].keystrokes == bs[ix].keystrokes
                       ==> bs[j].action.Custom?
    {
      PendingKeysMeaning(bs, ps, first, bs[ix].keystrokes);
      assert ix in ps;
    }
  }

  // ----- the per-action index -----

  ghost predicate Ascending(s: seq<nat>) {
    forall j, k :: 0 <= j < k < |s| ==> s[j] < s[k]
  }

  /** The index lists, in increasing order, exactly the real bindings of each type,
      and the disabled list exactly the others. */
  ghost predicate IndexOk(bs: seq<KeyBinding>, index: map<ActionType, seq<nat>>, disabled: seq<nat>) {
    && (forall t :: t in index ==>
          && Ascending(index[t])
          && forall ix: nat :: ix in index[t] <==> ix < |bs| && bs[ix].action.Custom? && bs[ix].action.Type() == t)
    && (forall ix :: 0 <= ix < |bs| && bs[ix].action.Custom? ==> bs[ix].action.Type() in index)
    && Ascending(disabled)
    && (forall ix: nat :: ix in disabled <==> ix < |bs| && !bs[ix].action.Custom?)
  }

  /** A later `NoAction` or `Unbind` that hides a binding from the listing by action. */
  predicate Silences(disabled: KeyBinding, binding: KeyBinding) {
    && disabled.keystrokes == binding.keystrokes
    && MatchesContext(disabled, binding)
    && (disabled.action.NoAction? || IsUnbound(disabled, binding))
  }

  function KeepForAction(bs: seq<KeyBinding>, ixs: seq<nat>, disabled: seq<nat>, action: Action): (r: seq<nat>)
    requires forall k :: 0 <= k < |ixs| ==> ixs[k] < |bs|
    requires forall k :: 0 <= k < |disabled| ==> disabled[k] < |bs|
  {
    if ixs == [] then []
    else
      var n := |ixs| - 1;
      var rest := KeepForAction(bs, ixs[..n], disabled, action);
      var binding := bs[ixs[n]];
      if binding.action != action
         || exists k :: 0 <= k < |disabled| && disabled[k] > ixs[n] && Silences(bs[disabled[k]], binding)
      then rest
      else rest + [ixs[n]]
  }

  /** A filter over the whole list of bindings: the action's own bindings that nothing later silences. */
  ghost predicate ListedFor(bs: seq<KeyBinding>, action: Action, ix: nat) {
    && ix < |bs|
    && bs[ix].action == action && action.Custom?
    && forall j :: ix < j < |bs| ==> !Silences(bs[j], bs[ix])
  }

  lemma {:induction false} KeepForActionIsFilter(bs: seq<KeyBinding>, index: map<ActionType, seq<nat>>,
                                                 disabled: seq<nat>, ixs: seq<nat>, action: Action)
    requires IndexOk(bs, index, disabled)
    requires Ascending(ixs) && forall k :: 0 <= k < |ixs| ==> ixs[k] < |bs| && bs[ixs[k]].action.Custom?
    requires forall k :: 0 <= k < |disabled| ==> disabled[k] < |bs|
    ensures Ascending(KeepForAction(bs, ixs, disabled, action))
    ensures forall ix: nat :: ix in KeepForAction(bs, ixs, disabled, action) <==> ix in ixs && ListedFor(bs, action, ix)
  {
    if ixs != [] {
      var n := |ixs| - 1;
      KeepForActionIsFilter(bs, index, disabled, ixs[..n], action);
      var rest := KeepForAction(bs, ixs[..n], disabled, action);
      var last := ixs[n];
      forall k | 0 <= k < |rest|
        ensures rest[k] < last
      {
        assert rest[k] in ixs[..n];
      }
      assert forall x :: x in ixs <==> x == last || x in ixs[..n];
      if j :| last < j < |bs| && Silences(bs[j], bs[last]) {
        assert !bs[j].action.Custom? && j in disabled;
      }
    }
  }

  ghost predicate LastEnds(s: seq<nat>, n: nat) {
    forall x :: x in s ==> x < n
  }

  lemma AscendingGrows(s: seq<nat>, n: nat)
    requires Ascending(s) && LastEnds(s, n)
    ensures Ascending(s + [n])
  {
    forall k | 0 <= k < |s|
      ensures s[k] < n
    {
      assert s[k] in s;
    }
  }

  lemma IndexGrowsReal(bs: seq<KeyBinding>, index: map<ActionType, seq<nat>>, disabled: seq<nat>, b: KeyBinding,
                       entry: seq<nat>)
    requires IndexOk(bs, index, disabled) && b.action.Custom?
    requires entry == if b.action.Type() in index then index[b.action.Type()] else []
    ensures IndexOk(bs + [b], index[b.action.Type() := entry + [|bs|]], disabled)
  {
    var t := b.action.Type();
    var index' := index[t := entry + [|bs|]];
    var bs' := bs + [b];
    AscendingGrows(entry, |bs|);
    forall u | u in index'
      ensures Ascending(index'[u])
      ensures forall ix: nat :: ix in index'[u] <==> ix < |bs'| && bs'[ix].action.Custom? && bs'[ix].action.Type() == u
    {
      if u == t {
        assert forall ix: nat :: ix in entry <==> ix < |bs| && bs[ix].action.Custom? && bs[ix].action.Type() == t;
      } else {
        assert index'[u] == index[u];
      }
    }
  }

  lemma IndexGrowsDisabled(bs: seq<KeyBinding>, index: map<ActionType, seq<nat>>, disabled: seq<nat>, b: KeyBinding)
    requires IndexOk(bs, index, disabled) && !b.action.Custom?
    ensures IndexOk(bs + [b], index, disabled + [|bs|])
  {
    AscendingGrows(disabled, |bs|);
    var bs' := bs + [b];
    forall t | t in index
      ensures forall ix: nat :: ix in index[t] <==> ix < |bs'| && bs'[ix].action.Custom? && bs'[ix].action.Type() == t
    {
      assert forall ix: nat :: ix in index[t] ==> ix < |bs|;
    }
  }

  class Keymap {
    var bindings: seq<KeyBinding>
    var indicesByAction: map<ActionType, seq<nat>>
    var disabledIndices: seq<nat>
    var version: nat

    ghost predicate Valid()
      reads this
    {
      IndexOk(bindings, indicesByAction, disabledIndices)
    }

    constructor ()
      ensures Valid() && bindings == [] && version == 0
    {
      bindings, indicesByAction, disabledIndices, version := [], map[], [], 0;
    }

    method AddBindings(added: seq<KeyBinding>)
      requires Valid()
      modifies this
      ensures Valid() && bindings == old(bindings) + added && version == old(version) + 1
    {
      for i := 0 to |added|
        invariant Valid() && bindings == old(bindings) + added[..i] && version == old(version)
      {
        var binding := added[i];
        var actionId := binding.action.Type();
        if binding.action.NoAction? || binding.action.Unbind? {
          IndexGrowsDisabled(bindings, indicesByAction, disabledIndices, binding);
          disabledIndices := disabledIndices + [|bindings|];
        } else {
          var entry := if actionId in indicesByAction then indicesByAction[actionId] else [];
          IndexGrowsReal(bindings, indicesByAction, disabledIndices, binding, entry);
          indicesByAction := indicesByAction[actionId := entry + [|bindings|]];
        }
        bindings := bindings + [binding];
      }
      version := version + 1;
    }

    method Clear()
      modifies this
      ensures Valid() && bindings == [] && version == old(version) + 1
    {
      bindings, indicesByAction, disabledIndices := [], map[], [];
      version := version + 1;
    }

    /** The positions of the bindings for an action, through the index. */
    function BindingsForAction(action: Action): (r: seq<nat>)
      requires Valid()
      reads this
      ensures Ascending(r)
      ensures forall ix: nat :: ix in r <==> ListedFor(bindings, action, ix)
    {
      var ixs := if action.Type() in indicesByAction then indicesByAction[action.Type()] else [];
      assert forall k :: 0 <= k < |ixs| ==> ixs[k] in ixs;
      assert forall k :: 0 <= k < |disabledIndices| ==> disabledIndices[k] in disabledIndices;
      KeepForActionIsFilter(bindings, indicesByAction, disabledIndices, ixs, action);
      KeepForAction(bindings, ixs, disabledIndices, action)
    }

    /** The bindings for typed input, in precedence order, and whether more might match if it were longer. */
    method BindingsForInput(input: seq<Keystroke>, contexts: seq<KeyContext>)
      returns (found: seq<nat>, pending: bool)
      ensures Resolution(found, pending) == Resolve(bindings, input, contexts)
    {
      var matched, pendings := CollectMatches(input, contexts);
      MatchedIsExact(bindings, input, contexts, |bindings|);
      SortIsExact(matched);
      PendingIsExact(bindings, input, contexts, |bindings|);
      assert forall k :: 0 <= k < |pendings| ==> pendings[k] in pendings;
      matched := SortEntries(matched);
      assert forall k :: 0 <= k < |matched| ==> matched[k] in matched;
      var firstIndex;
      found, firstIndex := SelectBindings(matched);
      var keys := CollectPending(pendings, firstIndex);
      pending := keys != {};
    }

    method CollectMatches(input: seq<Keystroke>, contexts: seq<KeyContext>)
      returns (matched: seq<Entry>, pendings: seq<nat>)
      ensures matched == Matched(bindings, input, contexts, |bindings|)
      ensures pendings == Pending(bindings, input, contexts, |bindings|)
    {
      matched, pendings := [], [];
      for ix := |bindings| downto 0
        invariant matched + Matched(bindings, input, contexts, ix) == Matched(bindings, input, contexts, |bindings|)
        invariant pendings + Pending(bindings, input, contexts, ix) == Pending(bindings, input, contexts, |bindings|)
      {
        var depth := bindings[ix].Enabled(contexts);
        if depth.None? {
          continue;
        }
        var pending := bindings[ix].MatchKeystrokes(input);
        if pending.None? {
          continue;
        }
        if !pending.value {
          matched := matched + [Entry(depth.value, ix)];
        } else {
          pendings := pendings + [ix];
        }
      }
    }

    /** Walks the sorted matches. */
    method SelectBindings(matched: seq<Entry>) returns (found: seq<nat>, firstIndex: Option<nat>)
      requires forall k :: 0 <= k < |matched| ==> matched[k].ix < |bindings|
      ensures found == Survivors(bindings, matched, [])
      ensures firstIndex == if found == [] then None else Some(found[0])
    {
      found, firstIndex := [], None;
      var unbound: seq<nat> := [];
      for k := 0 to |matched|
        invariant forall u :: 0 <= u < |unbound| ==> unbound[u] < |bindings|
        invariant found + Survivors(bindings, matched[k..], unbound) == Survivors(bindings, matched, [])
        invariant firstIndex == if found == [] then None else Some(found[0])
      {
        var ix := matched[k].ix;
        var binding := bindings[ix];
        assert matched[k..][0] == matched[k] && matched[k..][1..] == matched[k + 1..];
        if binding.action.NoAction? {
          if binding.meta.Some? {
            if binding.meta.value == 0 {
              return;
            }
          } else {
            return;
          }
          continue;
        }
        if binding.action.Unbind? {
          unbound := unbound + [ix];
          continue;
        }
        if exists u :: 0 <= u < |unbound| && IsUnbound(bindings[unbound[u]], binding) {
          continue;
        }
        found := found + [ix];
        if firstIndex.None? {
          firstIndex := Some(ix);
        }
      }
    }

    /** Takes the prefix matches, listed latest first, in the order they were added. */
    method CollectPending(pendings: seq<nat>, firstIndex: Option<nat>) returns (keys: set<seq<Keystroke>>)
      requires forall k :: 0 <= k < |pendings| ==> pendings[k] < |bindings|
      ensures keys == PendingKeys(bindings, pendings, firstIndex)
    {
      keys := {};
      for k := |pendings| downto 0
        invariant keys == PendingKeys(bindings, pendings[k..], firstIndex)
      {
        var ix := pendings[k];
        assert pendings[k..][0] == ix && pendings[k..][1..] == pendings[k + 1..];
        if firstIndex.Some? && firstIndex.value > ix {
          continue;
        }
        if bindings[ix].action.NoAction? || bindings[ix].action.Unbind? {
          keys := keys - {bindings[ix].keystrokes};
          continue;
        }
        keys := keys + {bindings[ix].keystrokes};
      }
    }
  }

  // ----- the listing by action against the resolution of input -----

  /** The context check between these two bindings can be trusted. */
  ghost predicate ContextCheckIsSound(disabled: KeyBinding, binding: KeyBinding) {
    disabled.context.Some? && binding.context.Some? ==> SupersetIsSound(disabled.context.value, binding.context.value)
  }

  /** A later binding that silences an earlier one applies wherever that one does, and outranks it. */
  lemma SilencerOutranks(bs: seq<KeyBinding>, input: seq<Keystroke>, contexts: seq<KeyContext>, ix: nat, j: nat)
    requires ix < j < |bs| && Silences(bs[j], bs[ix]) && ContextCheckIsSound(bs[j], bs[ix])
    requires Applies(bs, input, contexts, ix)
    ensures Applies(bs, input, contexts, j) && Outranks(bs, contexts, j, ix)
  {
    var d, b := bs[j], bs[ix];
    if b.context.Some? {
      DepthUpToIsDeepest(b.context.value, contexts, |contexts|);
      if d.context.Some? {
        SupersetIsAtLeastAsDeep(d.context.value, b.context.value, contexts);
      }
    }
  }

  /** What the listing by action hides because of an `Unbind` or of a removal of the user's own
      is never returned for any input in any contexts. */
  lemma SilencedIsNeverReturned(bs: seq<KeyBinding>, input: seq<Keystroke>, contexts: seq<KeyContext>, ix: nat, j: nat)
    requires ix < j < |bs| && Silences(bs[j], bs[ix]) && ContextCheckIsSound(bs[j], bs[ix])
    requires bs[j].EndsSearch() || bs[j].action.Unbind?
    ensures ix !in Resolve(bs, input, contexts).found
  {
    ResolveFindsReturned(bs, input, contexts);
    if Returned(bs, input, contexts, ix) {
      SilencerOutranks(bs, input, contexts, ix, j);
    }
  }

  /** A removal that does not end the search. */
  predicate IsBaseRemoval(b: KeyBinding) {
    b.action.NoAction? && !b.EndsSearch()
  }

  lemma InertAt(bs: seq<KeyBinding>, input: seq<Keystroke>, contexts: seq<KeyContext>, j: nat, other: KeyBinding,
                ix: nat)
    requires j < |bs| && IsBaseRemoval(bs[j]) && IsBaseRemoval(other) && Returned(bs, input, contexts, ix)
    ensures Returned(bs[j := other], input, contexts, ix)
  {
    var after := bs[j := other];
    assert ix != j && after[ix] == bs[ix];
    forall k: nat | Applies(after, input, contexts, k) && Outranks(after, contexts, k, ix)
      ensures !after[k].EndsSearch() && !IsUnbound(after[k], after[ix])
    {
      if k != j {
        assert Applies(bs, input, contexts, k) && Outranks(bs, contexts, k, ix);
      }
    }
  }

  /** Strictly falling listings with the same entries are the same listing. */
  lemma {:induction false} FallingDetermines(bs: seq<KeyBinding>, contexts: seq<KeyContext>, r: seq<nat>, s: seq<nat>)
    requires Falling(bs, contexts, r) && Falling(bs, contexts, s)
    requires forall ix :: ix in r <==> ix in s
    ensures r == s
    decreases |r|
  {
    if |s| > 0 {
      var first := s[0];
      assert first in s;
    }
    if r != [] {
      assert r[0] in r;
      assert s != [] && s[0] in s;
      var i :| 0 <= i < |s| && s[i] == r[0];
      var k :| 0 <= k < |r| && r[k] == s[0];
      assert i == 0 && k == 0;
      forall ix ensures ix in r[1..] <==> ix in s[1..] {
        RestOf(bs, contexts, r, ix);
        RestOf(bs, contexts, s, ix);
      }
      FallingDetermines(bs, contexts, r[1..], s[1..]);
    }
  }

  lemma RestOf(bs: seq<KeyBinding>, contexts: seq<KeyContext>, r: seq<nat>, ix: nat)
    requires Falling(bs, contexts, r) && r != []
    ensures ix in r[1..] <==> ix in r && ix != r[0]
  {
    if ix in r[1..] {
      var k :| 0 <= k < |r| - 1 && r[1..][k] == ix;
      assert Outranks(bs, contexts, r[0], r[k + 1]);
    }
  }

  /** A base removal is inert for input: in any keymap, putting any other base removal in its place changes nothing
      of what is found. */
  lemma BaseRemovalIsInert(bs: seq<KeyBinding>, input: seq<Keystroke>, contexts: seq<KeyContext>, j: nat,
                           other: KeyBinding)
    requires j < |bs| && IsBaseRemoval(bs[j]) && IsBaseRemoval(other)
    ensures Resolve(bs[j := other], input, contexts).found == Resolve(bs, input, contexts).found
  {
    var after := bs[j := other];
    var r, s := Resolve(bs, input, contexts).found, Resolve(after, input, contexts).found;
    ResolveFindsReturned(bs, input, contexts);
    ResolveFindsReturned(after, input, contexts);
    assert after[j := bs[j]] == bs;
    forall ix: nat ensures ix in r <==> ix in s {
      if Returned(bs, input, contexts, ix) {
        InertAt(bs, input, contexts, j, other, ix);
      }
      if Returned(after, input, contexts, ix) {
        InertAt(after, input, contexts, j, bs[j], ix);
      }
    }
    forall m, n | 0 <= m < n < |s| ensures Outranks(bs, contexts, s[m], s[n]) {
      assert s[m] in s && s[n] in s && Outranks(after, contexts, s[m], s[n]);
      assert Returned(after, input, contexts, s[m]) && Returned(after, input, contexts, s[n]);
    }
    FallingDetermines(bs, contexts, r, s);
  }

  /** The same removal, not the user's own. */
  function InBase(b: KeyBinding): KeyBinding {
    b.(meta := Some(1))
  }

  /** A later removal with sound contexts hides a binding from the listing by action in any keymap. From input it hides
      what would be found if it were in the base keymap exactly when it is the user's own. */
  lemma RemovalHidesFromInputIff(bs: seq<KeyBinding>, input: seq<Keystroke>, contexts: seq<KeyContext>, ix: nat, j: nat)
    requires ix < j < |bs| && bs[j].action.NoAction?
    requires Silences(bs[j], bs[ix]) && ContextCheckIsSound(bs[j], bs[ix])
    requires ix in Resolve(bs[j := InBase(bs[j])], input, contexts).found
    ensures !ListedFor(bs, bs[ix].action, ix)
    ensures ix !in Resolve(bs, input, contexts).found <==> bs[j].EndsSearch()
  {
    if bs[j].EndsSearch() {
      SilencedIsNeverReturned(bs, input, contexts, ix, j);
    } else {
      BaseRemovalIsInert(bs, input, contexts, j, InBase(bs[j]));
    }
  }

  /** `x` bound to an action and removed again in the base keymap: the action lists no binding, `x` still runs it. */
  lemma BaseRemovalStillRuns(x: Keystroke, action: Action)
    requires action.Custom?
    ensures var bs := [KeyBinding(action, [x], None, None), KeyBinding(NoAction, [x], None, Some(1))];
            Resolve(bs, [x], []).found == [0] && forall ix: nat :: !ListedFor(bs, action, ix)
  {
    var bs := [KeyBinding(action, [x], None, None), KeyBinding(NoAction, [x], None, Some(1))];
    assert Silences(bs[1], bs[0]);
    assert ShouldMatch(x, x);
    ResolveFindsReturned(bs, [x], []);
    var found := Resolve(bs, [x], []).found;
    assert Applies(bs, [x], [], 0) && !Outranks(bs, [], 0, 0);
    assert 0 in found && !Returned(bs, [x], [], 1);
    FallingDetermines(bs, [], found, [0]);
  }
}

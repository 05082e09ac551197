/** The local pass of `handleTapPressed`: the pasted text is cut into chunks,
    each chunk becomes a query state, the states are resolved by exact `value`
    match against the default options (`offlineFilter`), and the pass hands on
    the resolved options and the chunks still unresolved. */
module Resolver {
  import opened Builtins
  import opened TagOptions

  /** `{ query, resolved, option }`: `option` is `{}` before resolution, and
      afterwards the option `find` returned, or `undefined`. */
  datatype QueryState = QueryState(query: string, resolved: bool, option: Option<TagOption>)

  /** `queries.map(e => ({ query: e, resolved: false, option: {} }))`. */
  function InitialStates(queries: seq<string>): (r: seq<QueryState>)
    ensures |r| == |queries|
    ensures forall i :: 0 <= i < |r| ==> r[i].query == queries[i] && !r[i].resolved
  {
    if queries == [] then []
    else [QueryState(queries[0], false, Some(EmptyObject))] + InitialStates(queries[1..])
  }

  /** One state through `offlineFilter`: a resolved state is kept; any other is
      resolved exactly when some option has the query as its `value`, and then
      carries the first such option. */
  function ResolveState(qs: QueryState, options: seq<TagOption>): (r: QueryState)
    ensures r.query == qs.query
    ensures qs.resolved ==> r == qs
    ensures !qs.resolved ==>
      && (r.resolved <==> exists j :: 0 <= j < |options| && ValueOf(options[j]) == Some(qs.query))
      && (r.resolved ==> r.option == Some(options[FirstIndex(options, Some(qs.query))]))
      && (!r.resolved ==> r.option == None)
  {
    if qs.resolved then qs
    else
      var matched := Find(options, qs.query);
      qs.(resolved := matched.Some?, option := matched)
  }

  /** `queryStates.map(...)` inside `offlineFilter`. */
  function ResolveAll(states: seq<QueryState>, options: seq<TagOption>): (r: seq<QueryState>)
    ensures |r| == |states|
    ensures forall i :: 0 <= i < |r| ==> r[i] == ResolveState(states[i], options)
  {
    if states == [] then [] else [ResolveState(states[0], options)] + ResolveAll(states[1..], options)
  }

  /** `offlineFilter(queryStates, options)`: a value that is not an array
      resolves nothing. */
  function OfflineFilter(states: seq<QueryState>, options: Defaults): (r: seq<QueryState>)
    ensures options.NonArray? ==> r == states
    ensures |r| == |states|
    ensures options.Array? ==> forall i :: 0 <= i < |r| ==> r[i] == ResolveState(states[i], options.items)
    ensures forall i :: 0 <= i < |r| ==> r[i].query == states[i].query
  {
    if options.NonArray? then states else ResolveAll(states, options.items)
  }

  /** A resolved state carries an option. */
  ghost predicate WellFormed(states: seq<QueryState>)
  {
    forall i :: 0 <= i < |states| ==> states[i].resolved ==> states[i].option.Some?
  }

  /** `queryStates.filter(qs => !qs.resolved)`. */
  function Unresolved(states: seq<QueryState>): (r: seq<QueryState>)
    ensures |r| <= |states|
    ensures forall i :: 0 <= i < |r| ==> !r[i].resolved
  {
    if states == [] then []
    else (if states[0].resolved then [] else [states[0]]) + Unresolved(states[1..])
  }

  /** The filter keeps exactly the unresolved states. */
  lemma {:induction false} UnresolvedMembers(states: seq<QueryState>)
    ensures forall s :: s in Unresolved(states) ==> s in states && !s.resolved
    ensures forall i :: 0 <= i < |states| && !states[i].resolved ==> states[i] in Unresolved(states)
  {
    if states != [] {
      UnresolvedMembers(states[1..]);
      assert forall s :: s in states[1..] ==> s in states;
      assert forall i :: 1 <= i < |states| ==> states[i] == states[1..][i - 1];
    }
  }

  /** The filter keeps the order: the unresolved states of a concatenation are
      those of each part, in turn. */
  lemma {:induction false} UnresolvedAppend(a: seq<QueryState>, b: seq<QueryState>)
    ensures Unresolved(a + b) == Unresolved(a) + Unresolved(b)
  {
    if a == [] {
      assert a + b == b;
    } else {
      var h := if a[0].resolved then [] else [a[0]];
      assert (a + b)[0] == a[0] && (a + b)[1..] == a[1..] + b;
      UnresolvedAppend(a[1..], b);
      assert Unresolved(a + b) == h + Unresolved(a[1..] + b);
      assert h + (Unresolved(a[1..]) + Unresolved(b)) == (h + Unresolved(a[1..])) + Unresolved(b);
    }
  }

  /** `states.map(e => e.query)`. */
  function Queries(states: seq<QueryState>): (r: seq<string>)
    ensures |r| == |states|
    ensures forall i :: 0 <= i < |r| ==> r[i] == states[i].query
  {
    if states == [] then [] else [states[0].query] + Queries(states[1..])
  }

  /** `queryStates.filter(qs => qs.resolved).map(e => e.option)`. */
  function ResolvedOptions(states: seq<QueryState>): (r: seq<TagOption>)
    requires WellFormed(states)
    ensures |r| <= |states|
  {
    if states == [] then []
    else (if states[0].resolved then [states[0].option.value] else []) + ResolvedOptions(states[1..])
  }

  // ---------------------------------------------------------------------------
  // What the local pass computes, chunk by chunk
  // ---------------------------------------------------------------------------

  /** The first option with each chunk as its `value`, for the chunks that
      have one, in chunk order. */
  function LocalMatches(chunks: seq<string>, options: seq<TagOption>): (r: seq<TagOption>)
    ensures |r| <= |chunks|
  {
    if chunks == [] then []
    else
      var rest := LocalMatches(chunks[1..], options);
      match Find(options, chunks[0])
      case Some(o) => [o] + rest
      case None => rest
  }

  /** The chunks no option has as its `value`, in chunk order. */
  function UnmatchedChunks(chunks: seq<string>, options: seq<TagOption>): (r: seq<string>)
    ensures |r| <= |chunks|
  {
    if chunks == [] then []
    else (if Find(options, chunks[0]).None? then [chunks[0]] else []) + UnmatchedChunks(chunks[1..], options)
  }

  /** Each local match is the first option with some chunk as its `value`. */
  lemma {:induction false} LocalMatchesSound(chunks: seq<string>, options: seq<TagOption>)
    ensures forall o :: o in LocalMatches(chunks, options) ==>
      && o in options
      && (exists c :: c in chunks && ValueOf(o) == Some(c))
      && o == options[FirstIndex(options, ValueOf(o))]
  {
    if chunks != [] {
      var rest := LocalMatches(chunks[1..], options);
      LocalMatchesSound(chunks[1..], options);
      assert forall c :: c in chunks[1..] ==> c in chunks;
      match Find(options, chunks[0])
      case Some(o) =>
        assert LocalMatches(chunks, options) == [o] + rest;
        assert ValueOf(o) == Some(chunks[0]);
      case None =>
    }
  }

  /** Each unmatched chunk is a chunk that no option has as its `value`. */
  lemma {:induction false} UnmatchedSound(chunks: seq<string>, options: seq<TagOption>)
    ensures forall c :: c in UnmatchedChunks(chunks, options) ==>
      c in chunks && forall j :: 0 <= j < |options| ==> ValueOf(options[j]) != Some(c)
  {
    if chunks != [] {
      var h := if Find(options, chunks[0]).None? then [chunks[0]] else [];
      UnmatchedSound(chunks[1..], options);
      assert UnmatchedChunks(chunks, options) == h + UnmatchedChunks(chunks[1..], options);
      assert forall c :: c in chunks[1..] ==> c in chunks;
    }
  }

  /** Each chunk is matched or unmatched, never both. */
  lemma {:induction false} MatchedPlusUnmatched(chunks: seq<string>, options: seq<TagOption>)
    ensures |LocalMatches(chunks, options)| + |UnmatchedChunks(chunks, options)| == |chunks|
  {
    if chunks != [] {
      MatchedPlusUnmatched(chunks[1..], options);
    }
  }

  /** Every chunk that no option has as its `value` is among the unmatched ones. */
  lemma {:induction false} UnmatchedComplete(chunks: seq<string>, options: seq<TagOption>, i: nat)
    requires i < |chunks| && forall j :: 0 <= j < |options| ==> ValueOf(options[j]) != Some(chunks[i])
    ensures chunks[i] in UnmatchedChunks(chunks, options)
  {
    if i > 0 {
      assert chunks[1..][i - 1] == chunks[i];
      UnmatchedComplete(chunks[1..], options, i - 1);
    }
  }

  /** Every chunk that some option has as its `value` contributes the first
      such option. */
  lemma {:induction false} MatchedComplete(chunks: seq<string>, options: seq<TagOption>, i: nat)
    requires i < |chunks| && HasValue(options, Some(chunks[i]))
    ensures options[FirstIndex(options, Some(chunks[i]))] in LocalMatches(chunks, options)
  {
    if i > 0 {
      assert chunks[1..][i - 1] == chunks[i];
      MatchedComplete(chunks[1..], options, i - 1);
    }
  }

  /** Resolution keeps resolved states carrying an option. */
  lemma OfflineFilterWellFormed(states: seq<QueryState>, options: Defaults)
    requires WellFormed(states)
    ensures WellFormed(OfflineFilter(states, options))
  {
  }

  lemma InitialStatesWellFormed(queries: seq<string>)
    ensures WellFormed(InitialStates(queries))
  {
  }

  /** The local pass over an array of defaults is `LocalMatches` and
      `UnmatchedChunks`: the states are built, resolved, split and mapped in
      chunk order. */
  lemma {:induction false} LocalPass(chunks: seq<string>, options: seq<TagOption>)
    ensures var states := OfflineFilter(InitialStates(chunks), Array(options));
      && WellFormed(states)
      && ResolvedOptions(states) == LocalMatches(chunks, options)
      && Queries(Unresolved(states)) == UnmatchedChunks(chunks, options)
  {
    var states := OfflineFilter(InitialStates(chunks), Array(options));
    InitialStatesWellFormed(chunks);
    OfflineFilterWellFormed(InitialStates(chunks), Array(options));
    if chunks != [] {
      LocalPass(chunks[1..], options);
      var init, init' := InitialStates(chunks), InitialStates(chunks[1..]);
      assert init[1..] == init';
      assert states[1..] == ResolveAll(init', options);
      var f := Find(options, chunks[0]);
      assert states[0] == QueryState(chunks[0], f.Some?, f);
    }
  }

  /** With defaults that are not an array, nothing resolves and every chunk
      goes to the remote query. */
  lemma {:induction false} LocalPassNonArray(chunks: seq<string>)
    ensures var states := OfflineFilter(InitialStates(chunks), NonArray);
      && WellFormed(states)
      && ResolvedOptions(states) == []
      && Queries(Unresolved(states)) == chunks
  {
    InitialStatesWellFormed(chunks);
    if chunks != [] {
      LocalPassNonArray(chunks[1..]);
      assert InitialStates(chunks)[1..] == InitialStates(chunks[1..]);
    }
  }

  /** The matches the local pass finds against `_defaultOptions`. */
  function LocalMatchesOf(defaults: Defaults, chunks: seq<string>): (r: seq<TagOption>)
    ensures defaults.NonArray? ==> r == []
    ensures defaults.Array? ==> r == LocalMatches(chunks, defaults.items)
  {
    if defaults.Array? then LocalMatches(chunks, defaults.items) else []
  }

  /** The chunks the local pass leaves for the remote query. */
  function PendingOf(defaults: Defaults, chunks: seq<string>): (r: seq<string>)
    ensures defaults.NonArray? ==> r == chunks
    ensures defaults.Array? ==> r == UnmatchedChunks(chunks, defaults.items)
  {
    if defaults.Array? then UnmatchedChunks(chunks, defaults.items) else chunks
  }

  /** The local pass against whatever `_defaultOptions` holds. */
  lemma LocalPassOf(defaults: Defaults, chunks: seq<string>)
    ensures var states := OfflineFilter(InitialStates(chunks), defaults);
      && WellFormed(states)
      && ResolvedOptions(states) == LocalMatchesOf(defaults, chunks)
      && Queries(Unresolved(states)) == PendingOf(defaults, chunks)
  {
    if defaults.Array? {
      LocalPass(chunks, defaults.items);
    } else {
      LocalPassNonArray(chunks);
    }
  }
}

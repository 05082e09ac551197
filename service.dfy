/** The suggestion service object: its configuration fields, the two
    operations the picker calls (`loadOptions` while the user types,
    `handleTapPressed` when text is pasted or tabbed in), and the last value
    it published on its `loading` stream. */
module Service {
  import opened Builtins
  import opened Chunking
  import opened TagOptions
  import opened Matcher
  import opened Resolver

  /** The suggest fields a service gets when none are given. */
  const DefaultSuggestFields: seq<string> := ["value", "label"]

  /** The message of the `TypeError` a call on a missing member raises. */
  const NotAFunction: string := "TypeError: not a function"

  /** What `loadOptions(input)` resolves to, given the options the remote
      loader returned (`[]` when there is none): the defaults themselves for
      the empty input; otherwise the defaults that match the last chunk
      followed by the remote options. Filtering defaults that are not an
      array throws. */
  function Suggestions(defaults: Defaults, input: string, querySize: nat, suggestFields: seq<string>,
                       remote: seq<TagOption>): (r: Completion<Defaults>)
    requires input != "" ==> querySize > 0
  {
    if input == "" then Returned(defaults)
    else if defaults.NonArray? then Threw(NotAFunction)
    else Returned(Array(Filter(defaults.items, Matching(LastChunk(input, querySize), querySize, suggestFields)) + remote))
  }

  /** A suggestion list for a non-empty input is the matching defaults, in the
      defaults' order, followed by the remote options. */
  lemma SuggestionsShape(items: seq<TagOption>, input: string, querySize: nat, suggestFields: seq<string>, remote: seq<TagOption>)
    requires input != "" && querySize > 0
    ensures var out := Suggestions(Array(items), input, querySize, suggestFields, remote).value.items;
      var t, n := LastChunk(input, querySize), |out| - |remote|;
      && 0 <= n <= |items|
      && out[n..] == remote
      && (forall k :: 0 <= k < n ==> out[k] in items && FilterOption(out[k], t, querySize, suggestFields))
      && (forall j :: 0 <= j < |items| && FilterOption(items[j], t, querySize, suggestFields) ==> items[j] in out[..n])
  {
    var t := LastChunk(input, querySize);
    var local := Filter(items, Matching(t, querySize, suggestFields));
    FilterMembers(items, Matching(t, querySize, suggestFields));
    var out := local + remote;
    assert out[..|local|] == local && out[|local|..] == remote;
  }

  /** The local part keeps the defaults' order: the suggestions for a
      concatenation of defaults are those of each part, in turn. */
  lemma SuggestionsKeepOrder(a: seq<TagOption>, b: seq<TagOption>, input: string, querySize: nat, suggestFields: seq<string>)
    requires input != "" && querySize > 0
    ensures Suggestions(Array(a + b), input, querySize, suggestFields, []).value.items ==
            Suggestions(Array(a), input, querySize, suggestFields, []).value.items +
            Suggestions(Array(b), input, querySize, suggestFields, []).value.items
  {
    FilterAppend(a, b, Matching(LastChunk(input, querySize), querySize, suggestFields));
  }

  /** When every default matches, the list is all the defaults followed by
      the remote options. */
  lemma SuggestionsAllMatch(items: seq<TagOption>, input: string, querySize: nat, suggestFields: seq<string>, remote: seq<TagOption>)
    requires input != "" && querySize > 0
    requires forall j :: 0 <= j < |items| ==> FilterOption(items[j], LastChunk(input, querySize), querySize, suggestFields)
    ensures Suggestions(Array(items), input, querySize, suggestFields, remote) == Returned(Array(items + remote))
  {
    FilterAll(items, Matching(LastChunk(input, querySize), querySize, suggestFields));
  }

  class SuggestionService {
    var defaultOptions: Defaults
    var querySize: nat
    var suggestFields: seq<string>
    /** `_loadOptions`: `(searchText, querySize)` to the remote options, if set. */
    var optionLoader: Option<(string, nat) -> seq<TagOption>>
    /** `_fastQuery`: the joined unresolved chunks to the remote options, if set. */
    var fastQueryLoader: Option<string -> seq<TagOption>>
    /** The last value published on `loading`, if any. */
    var loading: Option<bool>

    constructor(options: Defaults := Array([]), querySize: nat := 0,
                suggestFields: seq<string> := DefaultSuggestFields,
                loadOptions: Option<(string, nat) -> seq<TagOption>> := None,
                fastQuery: Option<string -> seq<TagOption>> := None)
      ensures defaultOptions == options && this.querySize == querySize && this.suggestFields == suggestFields
      ensures optionLoader == loadOptions && fastQueryLoader == fastQuery
      ensures loading == None
    {
      defaultOptions := options;
      this.querySize := querySize;
      this.suggestFields := suggestFields;
      optionLoader := loadOptions;
      fastQueryLoader := fastQuery;
      loading := None;
    }

    method SetDefaultOptions(options: Defaults)
      modifies this`defaultOptions
      ensures defaultOptions == options
    {
      defaultOptions := options;
    }

    method SetRemoteQuery(loadOptions: Option<(string, nat) -> seq<TagOption>>, fastQuery: Option<string -> seq<TagOption>>)
      modifies this`optionLoader, this`fastQueryLoader
      ensures optionLoader == loadOptions && fastQueryLoader == fastQuery
    {
      optionLoader := loadOptions;
      fastQueryLoader := fastQuery;
    }

    /** `loadOptions(input)`; `request` is the call the remote loader got. */
    method LoadOptions(input: string) returns (r: Completion<Defaults>, request: Option<(string, nat)>)
      requires input != "" ==> querySize > 0
      modifies this`loading
      ensures input == "" ==> loading == old(loading) && request == None
      ensures input != "" ==> loading == Some(true)
      ensures input != "" && optionLoader.Some? ==> request == Some((LastChunk(input, querySize), querySize))
      ensures optionLoader.None? ==> request == None
      ensures r == Suggestions(defaultOptions, input, querySize, suggestFields,
                               if request.Some? then optionLoader.value(request.value.0, request.value.1) else [])
    {
      if input == "" {
        return Returned(defaultOptions), None;
      }
      loading := Some(true);
      var searchText := LastChunk(input, querySize);
      var remote := [];
      request := None;
      if optionLoader.Some? {
        request := Some((searchText, querySize));
        remote := optionLoader.value(searchText, querySize);
      }
      if defaultOptions.NonArray? {
        return Threw(NotAFunction), request;
      }
      var local := Filter(defaultOptions.items, Matching(searchText, querySize, suggestFields));
      r := Returned(Array(local + remote));
    }

    /** `fastQuery(input)`: calls the fast-query loader, which throws when
        none is set. */
    function FastQuery(input: string): (r: Completion<seq<TagOption>>)
      reads this
    {
      if fastQueryLoader.Some? then Returned(fastQueryLoader.value(input)) else Threw(NotAFunction)
    }

    /** The local part of `handleTapPressed`: the chunks of `input` become
        query states, `offlineFilter` resolves them against the defaults, and
        the pass returns the resolved options and the unresolved states, both
        in chunk order. */
    method ResolveLocally(input: string, querySize: nat) returns (newSelected: seq<TagOption>, unresolveds: seq<QueryState>)
      requires querySize > 0
      ensures newSelected == LocalMatchesOf(defaultOptions, Chunks(input, querySize))
      ensures Queries(unresolveds) == PendingOf(defaultOptions, Chunks(input, querySize))
      ensures forall i :: 0 <= i < |unresolveds| ==> !unresolveds[i].resolved
    {
      var queries := Chunks(input, querySize);
      var queryStates := InitialStates(queries);
      queryStates := OfflineFilter(queryStates, defaultOptions);
      LocalPassOf(defaultOptions, queries);
      unresolveds := Unresolved(queryStates);
      newSelected := ResolvedOptions(queryStates);
    }

    /** `handleTapPressed(selected, input, querySize)`: resolves the chunks of
        `input` against the defaults, asks `_fastQuery` once for all the chunks
        left, and merges what it found into the selection by `value`.
        `request` is the call the fast-query loader got. */
    method HandleTapPressed(selected: seq<TagOption>, input: string, querySize: nat)
      returns (result: seq<TagOption>, request: Option<string>)
      requires querySize > 0
      modifies this`loading
      ensures loading == Some(false)
      ensures var pending := PendingOf(defaultOptions, Chunks(input, querySize));
        request == if |pending| != 0 && fastQueryLoader.Some? then Some(Join(pending)) else None
      ensures var fetched := if request.Some? then fastQueryLoader.value(request.value) else [];
        result == UniqBy(selected + (LocalMatchesOf(defaultOptions, Chunks(input, querySize)) + fetched))
    {
      var newSelected, unresolveds := ResolveLocally(input, querySize);
      request := None;
      if |unresolveds| != 0 && fastQueryLoader.Some? {
        loading := Some(true);
        request := Some(Join(Queries(unresolveds)));
        var fetched := FastQuery(request.value).value;
        newSelected := newSelected + fetched;
      } else {
        assert newSelected == newSelected + [];
      }
      loading := Some(false);
      result := UniqBy(selected + newSelected);
    }
  }
}

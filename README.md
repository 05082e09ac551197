# SuggestionService of the tag picker, in Dafny

This project models the suggestion and resolution engine behind the tag
picker of `tag-picker-fluent-ui`, the `SuggestionService` class. It covers
five pieces:

- **The accent-folding normalizer.** It turns every `-` into a space. It
  replaces each lower-case Vietnamese accented vowel, and `đ`, with its base
  letter.
- **The chunker.** `_.chunk(input.split(""), querySize).map(join)` cuts a
  pasted code into pieces of `querySize` characters. The last piece is the
  search text.
- **The option matcher** (`_filterOption`). An option matches when one of
  its suggest fields contains the query. Both sides are lower-cased and
  accent-folded first. The `value` field is compared with the search text
  and every other field with the whole input.
- **`loadOptions`.** It returns the matching defaults, in their order,
  followed by what the remote loader returned.
- **`handleTapPressed`.** It resolves each chunk of a pasted text by exact
  `value` against the defaults. It sends all unresolved chunks, joined, in a
  single fast-query call. It then merges the result into the current
  selection with `_.uniqBy(…, 'value')`, so the first occurrence of each
  value wins.

Modules, one file each:

- `Builtins` (`builtins.dfy`): `toLowerCase`, `indexOf`, `filter` and `join("")`.
- `Normalizer` (`normalizer.dfy`): the folding table and `_normalize`.
- `Chunking` (`chunking.dfy`): the chunker.
- `TagOptions` (`tag_options.dfy`): option objects, `find`, `uniqBy`.
- `Matcher` (`matcher.dfy`): `_filterOption`.
- `Resolver` (`resolver.dfy`): the local pass of `handleTapPressed`.
- `Service` (`service.dfy`): the class, with its fields and methods.
- `Scenarios` (`scenarios.dfy`): worked examples with the data of the
  Storybook story.

The normalizer, the chunker, the matcher and the local pass are pure code
and are modelled as functions. The class is a Dafny `class` whose methods
assign its fields. The loaders are function-valued fields, and the methods
return the call they made to a loader as an out-parameter. That lets the
contracts say whether a loader was called, how often (at most once), and
with which argument. The `loading` subject is the field `loading`, which
holds the last value published.

Two behaviours of the code worth knowing:

- `loadOptions` hands `_filterOption` the last chunk, not the raw input
  (`SuggestionService.ts:118`). So every suggest field, `label` included, is
  compared with the last chunk (`Matcher.LoadOptionsComparesLastChunk`).
- `loadOptions` raises `loading` to `true` only for a non-empty input, and
  never lowers it. Lowering is done by the stream's `tap` in `onSuggestion`
  (line 178), which is not part of this model.

## Model

Paths are relative to the repository root.

| member | source | states |
|---|---|---|
| Builtins.Lower | src/components/TagPicker/SuggestionService.ts:87-88 | `toLowerCase` keeps the length and lower-cases each character on its own |
| Builtins.LowerIdempotent | src/components/TagPicker/SuggestionService.ts:87-88 | lower-casing twice is lower-casing once |
| Builtins.IndexOf | src/components/TagPicker/SuggestionService.ts:89 | `indexOf` is `-1` exactly when the needle occurs nowhere; otherwise it is the first position where it occurs |
| Builtins.Contains | src/components/TagPicker/SuggestionService.ts:89 | `indexOf(q) >= 0` holds exactly when `q` occurs somewhere in the text |
| Builtins.FilterMembers | src/components/TagPicker/SuggestionService.ts:118 | `filter` keeps exactly the elements that pass the predicate: each kept element is from the input and passes, and each passing element is kept |
| Builtins.FilterAppend | src/components/TagPicker/SuggestionService.ts:118 | `filter` of a concatenation is the concatenation of the filters, so the input order is preserved |
| Builtins.FilterAll | src/components/TagPicker/SuggestionService.ts:118 | when every element passes, `filter` returns the input |
| Builtins.JoinAppend | src/components/TagPicker/SuggestionService.ts:162 | `join("")` of a concatenation is the concatenation of the joins |
| Normalizer.VietnameseMapDisjoint | src/components/TagPicker/SuggestionService.ts:13-27 | no character is listed in two rows of the folding table, so the order in which rows are searched does not matter |
| Normalizer.BasesAreNotVariants | src/components/TagPicker/SuggestionService.ts:13-27 | no base letter, no space and no hyphen is a listed variant |
| Normalizer.FoldWith | src/components/TagPicker/SuggestionService.ts:60-65 | the search over the table returns a listing row's base letter for a listed character, and the character itself otherwise |
| Normalizer.FoldChar | src/components/TagPicker/SuggestionService.ts:59-66 | a character listed in a row becomes that row's base letter whichever row it is; any other character is kept |
| Normalizer.ReplaceSpecialChars | src/components/TagPicker/SuggestionService.ts:51-53 | `replace(/-/g, ' ')` keeps the length and turns exactly the hyphens into spaces |
| Normalizer.FoldChars | src/components/TagPicker/SuggestionService.ts:57-67 | `split('').map(...).join('')` keeps the length and folds each character on its own |
| Normalizer.Normalize | src/components/TagPicker/SuggestionService.ts:55-68 | `_normalize` keeps the length; a hyphen becomes a space, a variant becomes its base letter, and every other character (upper-case accented letters included) is unchanged |
| Normalizer.NormalizeIsNormal | src/components/TagPicker/SuggestionService.ts:55-68 | the normalizer's output contains no hyphen and no variant |
| Normalizer.NormalFixed | src/components/TagPicker/SuggestionService.ts:55-68 | a string with no hyphen and no variant is its own normal form |
| Normalizer.NormalizeIdempotent | src/components/TagPicker/SuggestionService.ts:55-68 | normalizing twice is normalizing once |
| Chunking.Chunks | src/components/TagPicker/SuggestionService.ts:129-130 | the chunks join back to the input; every chunk but the last is `querySize` long; the last is 1 to `querySize` long; there are no chunks exactly for the empty input |
| Chunking.ChunksUnique | src/components/TagPicker/SuggestionService.ts:129-130 | any split of the input with that shape is the one `Chunks` returns, so the chunking is determined by the input |
| Chunking.LastChunk | src/components/TagPicker/SuggestionService.ts:112-114 | the search text is a non-empty suffix of the input, at most `querySize` long |
| Chunking.LastChunkIsSuffix | src/components/TagPicker/SuggestionService.ts:77 | the last of the chunks is a suffix of the input |
| Chunking.ShortIsOneChunk | src/components/TagPicker/SuggestionService.ts:129-130 | a non-empty input no longer than `querySize` is a single chunk, itself |
| Chunking.LastChunkIdempotent | src/components/TagPicker/SuggestionService.ts:75-77 | the last chunk of the last chunk is the last chunk |
| Matcher.SearchText | src/components/TagPicker/SuggestionService.ts:75-77 | `searchText` is the input when `querySize` is 0; otherwise it is the last of the chunks; either way it is a non-empty suffix of the input |
| Matcher.SearchFields | src/components/TagPicker/SuggestionService.ts:82-93 | the `for-in` loop with early return is true exactly when some own property is a suggest field whose text contains the query for its key |
| Matcher.FilterOption | src/components/TagPicker/SuggestionService.ts:70-95 | the empty input matches every option; otherwise the option, unwrapped from `data`, matches exactly when some own property is a suggest field whose value contains the search text (for `value`) or the input (for the other keys) |
| Matcher.KeyOrderIrrelevant | src/components/TagPicker/SuggestionService.ts:82 | the order in which `for-in` visits the properties does not change the verdict |
| Matcher.OnlySuggestFieldsMatter | src/components/TagPicker/SuggestionService.ts:85 | an option without any suggest field never matches a non-empty input |
| Matcher.LoadOptionsComparesLastChunk | src/components/TagPicker/SuggestionService.ts:118 | with the last chunk passed as the input, every suggest field is compared with the last chunk |
| Matcher.RowIsLower | src/components/TagPicker/SuggestionService.ts:13-27 | every base letter and every variant in the table is already lower case |
| Matcher.NormalizeAt | src/components/TagPicker/SuggestionService.ts:55-68 | each output character of the normalizer depends only on the input character at the same position |
| Matcher.NormalLowerCharAbsorbs | src/components/TagPicker/SuggestionService.ts:87-89 | for one character, folding before lower-casing and folding changes nothing |
| Matcher.NormalizeLowerAbsorbs | src/components/TagPicker/SuggestionService.ts:87-89 | `normalize(lower(normalize(s)))` is `normalize(lower(s))` |
| Matcher.MatchesIgnoresCase | src/components/TagPicker/SuggestionService.ts:87-89 | lower-casing the field or the query beforehand does not change whether they match |
| Matcher.MatchesIgnoresAccents | src/components/TagPicker/SuggestionService.ts:87-89 | folding the field or the query beforehand does not change whether they match, so a field with accents matches its query written without them |
| TagOptions.Lookup | src/components/TagPicker/SuggestionService.ts:87 | `option[key]` is undefined exactly when no own property has that key; otherwise it is the value of a property with that key |
| TagOptions.LookupListed | src/components/TagPicker/SuggestionService.ts:87 | in an object with distinct keys, `option[key]` is the value of the listed property |
| TagOptions.FirstIndex | src/components/TagPicker/SuggestionService.ts:136 | the position found has the key as its `value`, and no earlier position has it |
| TagOptions.Find | src/components/TagPicker/SuggestionService.ts:136 | `find` is undefined exactly when no option has the query as its `value`; otherwise it is the first such option |
| TagOptions.FirstIndexSnoc | src/components/TagPicker/SuggestionService.ts:136 | appending one option changes a first position only when the key was absent |
| TagOptions.UniqByFirstOccurrences | src/components/TagPicker/SuggestionService.ts:167 | `uniqBy` returns distinct values, the same values as its input, each entry the first input option with its value, in the order of those first occurrences |
| TagOptions.UniqBySnoc | src/components/TagPicker/SuggestionService.ts:167 | one more option at the end is kept exactly when its value is new |
| TagOptions.UniqByOfUnique | src/components/TagPicker/SuggestionService.ts:167 | a list whose values are already distinct is its own `uniqBy` |
| TagOptions.MergeKeepsSelection | src/components/TagPicker/SuggestionService.ts:167 | merging into a selection with distinct values keeps the whole selection, unchanged, at the front |
| TagOptions.SelectionWins | src/components/TagPicker/SuggestionService.ts:167 | an option in the merge whose value the selection has is the selection's own option, so a pre-existing selection wins |
| Resolver.InitialStates | src/components/TagPicker/SuggestionService.ts:145-151 | one unresolved state per chunk, carrying the chunk, in chunk order |
| Resolver.ResolveState | src/components/TagPicker/SuggestionService.ts:134-141 | a resolved state is kept; any other state becomes resolved exactly when some option has its query as `value`, and then carries the first such option, or else `undefined` |
| Resolver.ResolveAll | src/components/TagPicker/SuggestionService.ts:134-141 | the `map` resolves the states position by position: each output state is the input state at that position, resolved |
| Resolver.OfflineFilter | src/components/TagPicker/SuggestionService.ts:132-142 | defaults that are not an array resolve nothing; over an array, each state is resolved against it, position by position |
| Resolver.UnresolvedMembers | src/components/TagPicker/SuggestionService.ts:156 | the filter keeps exactly the unresolved states: every kept state is an unresolved input state, and every unresolved input state is kept |
| Resolver.UnresolvedAppend | src/components/TagPicker/SuggestionService.ts:156 | the unresolved states of a concatenation are those of each part, in turn, so the filter keeps the states' order |
| Resolver.Queries | src/components/TagPicker/SuggestionService.ts:162 | `map(e => e.query)` gives each state's query, in order |
| Resolver.LocalMatchesSound | src/components/TagPicker/SuggestionService.ts:136 | each local match is a default option with some chunk as its `value`, and it is the first such default |
| Resolver.UnmatchedSound | src/components/TagPicker/SuggestionService.ts:136-138 | each unmatched chunk is a chunk that no default has as its `value` |
| Resolver.MatchedPlusUnmatched | src/components/TagPicker/SuggestionService.ts:154-158 | every chunk is either matched or unmatched, never both |
| Resolver.UnmatchedComplete | src/components/TagPicker/SuggestionService.ts:154-156 | every chunk that no default has as its `value` is among the unmatched chunks |
| Resolver.MatchedComplete | src/components/TagPicker/SuggestionService.ts:158 | every chunk that some default has as its `value` contributes the first such default |
| Resolver.OfflineFilterWellFormed | src/components/TagPicker/SuggestionService.ts:132-142 | after `offlineFilter`, every resolved state carries an option |
| Resolver.InitialStatesWellFormed | src/components/TagPicker/SuggestionService.ts:145-151 | no initial state is resolved |
| Resolver.LocalPass | src/components/TagPicker/SuggestionService.ts:145-158 | over an array of defaults, the resolved options are the chunks' first matches and the unresolved queries are the unmatched chunks, both in chunk order |
| Resolver.LocalPassNonArray | src/components/TagPicker/SuggestionService.ts:133 | with defaults that are not an array, nothing resolves and every chunk stays unresolved |
| Resolver.LocalPassOf | src/components/TagPicker/SuggestionService.ts:145-158 | the local pass against whatever the defaults hold |
| Service.SuggestionsShape | src/components/TagPicker/SuggestionService.ts:118-119 | the list is the matching defaults and then exactly the remote options: every local entry is a default that matches, and every matching default is present |
| Service.SuggestionsKeepOrder | src/components/TagPicker/SuggestionService.ts:118 | the local part keeps the defaults' order |
| Service.SuggestionsAllMatch | src/components/TagPicker/SuggestionService.ts:118-119 | when every default matches, the list is all the defaults followed by the remote options |
| Service.SuggestionService.constructor | src/components/TagPicker/SuggestionService.ts:41-49 | the fields hold the arguments, with the defaults `[]`, `0`, `["value", "label"]` and no loaders; nothing has been published on `loading` |
| Service.SuggestionService.SetDefaultOptions | src/components/TagPicker/SuggestionService.ts:97-99 | the defaults are replaced |
| Service.SuggestionService.SetRemoteQuery | src/components/TagPicker/SuggestionService.ts:101-104 | both loaders are replaced |
| Service.SuggestionService.LoadOptions | src/components/TagPicker/SuggestionService.ts:106-120 | the empty input returns the defaults, with no call and no change to `loading`; otherwise `loading` becomes true, the remote loader (if set) is called once with the last chunk and `querySize`, and the result is `Suggestions` of that answer |
| Service.SuggestionService.ResolveLocally | src/components/TagPicker/SuggestionService.ts:129-158 | the local pass returns the chunks' first matches among the defaults and the still unresolved states, whose queries are the pending chunks in order |
| Service.SuggestionService.HandleTapPressed | src/components/TagPicker/SuggestionService.ts:126-168 | `loading` ends false; `fastQuery` is called at most once, exactly when some chunk is pending and a loader is set, with the pending chunks joined in order; the result is `uniqBy` of the selection, then the local matches, then the fetched options |
| Scenarios.NormalizeAcute | src/components/TagPicker/SuggestionService.ts:14 | `á` folds to `a` |
| Scenarios.NormalizeStroke | src/components/TagPicker/SuggestionService.ts:26 | `đ` folds to `d` |
| Scenarios.NormalizeLowerBo | src/components/TagPicker/TagPicker.stories.tsx:11 | `Bộ` lower-cased and folded is `bo` |
| Scenarios.ChunkExample | src/components/TagPicker/TagPicker.stories.tsx:31 | `0102` in pieces of two is `01`, `02`, and its search text is `02` |
| Scenarios.FindExamples | src/components/TagPicker/SuggestionService.ts:136 | `find` over the defaults `01`, `02` finds each and misses `03` |
| Scenarios.MergeExample | src/components/TagPicker/SuggestionService.ts:167 | merging `[01]` with `[01 dup, 02]` keeps the selected `01` and adds `02` |
| Scenarios.LocalPassOneUnknown | src/components/TagPicker/SuggestionService.ts:154-158 | against `01`, `02`, the chunks `01`, `03` give the match `01` and leave `03` |
| Scenarios.PasteResolvedLocally | src/components/TagPicker/SuggestionService.ts:126-168 | pasting `0102` with defaults `01`, `02` selects both, in order, with no fast query |
| Scenarios.PasteWithRemoteFallback | src/components/TagPicker/SuggestionService.ts:160-167 | pasting `0103` sends only `03` to the fast query and appends its answer after the local `01` |

## Left out

- The rxjs pipeline is not modelled: `onQueryChange`, `onSuggestion`, `debounceTime(250)`, `distinctUntilChanged`, `switchMap` and the `takeUntil` cancel through `_tapSubject` (lines 127 and 170-181). These are timing and asynchronous ordering semantics of a library that is not part of this model.
- The `loading` subject is reduced to the last value it published. Subscribers and the observable are not modelled.
- The loaders `_loadOptions` and `_fastQuery` are pure, total functions. A promise that rejects is not modelled; the code has no error handling around the calls anyway.
- The `querySize == 0` branch of `loadOptions` (line 115) is not modelled. It passes the number `0` to `_filterOption`, which would call `toLowerCase` on it. `LoadOptions` asks for `querySize > 0` when the input is not empty.
- HandleTapPressed: requires `querySize > 0`, because `_.chunk` with size 0 is lodash behaviour that is not part of this model.
- Builtins.LowerChar: lower-cases ASCII, Latin-1 and the upper-case Vietnamese letters only; every other character is its own lower case. Full Unicode case mapping is not modelled.
- Strings are sequences of characters, not of UTF-16 code units. `split("")` coincides with this for the letters the table lists.
- Option properties hold strings. `toString` coercion of other values is not modelled.
- `==` in `find` (line 136) is string equality, and an option without `value` has the key `undefined`.
- `for-in` visits own properties only. Inherited enumerable properties, which the `hasOwnProperty` test skips, are not modelled.
- A `data` property holding something other than an object is not modelled.
- `src/components/TagPicker/TagPicker.tsx` (the React widget) is not part of this model. `TagPicker.stories.tsx` is used only as example data.
- The class has no sequence counter and no cancel operation. Its only latest-wins mechanism is rxjs `switchMap`/`takeUntil`, which is not modelled.
- Service.SuggestionService.LoadOptions: treats the call as one atomic step. The source reads `_defaultOptions` only after `await this._loadOptions(...)` returns (lines 117-118), so a `setDefaultOptions`, or another `loadOptions` or `handleTapPressed` that changes `loading`, can run in between. The model reads the defaults at call time, and its `loading` result assumes nothing ran during the suspension. The same holds for the `await` of `fastQuery` in `HandleTapPressed` (line 161).
- Service.SuggestionService.SetDefaultOptions: stores the defaults as a value. The source stores the caller's array by reference (line 98), and `loadOptions("")` returns that same array (line 108), so a later mutation by the caller or the consumer changes the service's defaults. This aliasing is not modelled.
- Service.SuggestionService.constructor: takes `querySize` as a natural number. The source's `number` may be negative or fractional. Lodash `chunk` then truncates it, or returns `[]` for a size below 1, and with a negative size `.pop().join("")` at line 77 throws. None of this is modelled.
- Defaults: `NonArray` stands for a value that is neither an array nor has a `filter` method. A non-array that has a `filter` method, such as a typed array, is skipped by `offlineFilter` (line 133) but filtered by `loadOptions` (line 118). That case is not modelled.
- TagOption: the type admits values no object has, namely two properties with the same key, or a `"data"` property in `fields` while `data` is `None`. `Lookup` reads the first of duplicate keys; `SearchFields` tests every entry. The contracts do not exclude these values.

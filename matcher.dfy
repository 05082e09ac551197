/** The service's option matcher, `_filterOption`: an option is suggested for
    a query when one of its suggest fields, lower-cased and accent-folded,
    contains the lower-cased and accent-folded query. */
module Matcher {
  import opened Builtins
  import opened Normalizer
  import opened Chunking
  import opened TagOptions

  /** The text the `value` field is compared with: the whole input when the
      service does not chunk, otherwise the last chunk of the input. */
  function SearchText(input: string, querySize: nat): (r: string)
    requires |input| > 0
    ensures 0 < |r| <= |input| && r == input[|input| - |r|..]
    ensures querySize == 0 ==> r == input
    ensures querySize > 0 ==> |r| <= querySize && r == Chunks(input, querySize)[|Chunks(input, querySize)| - 1]
  {
    if querySize == 0 then input else LastChunk(input, querySize)
  }

  /** `normalize(lower(data)).indexOf(normalize(lower(query))) >= 0`. */
  predicate Matches(data: string, query: string)
  {
    Contains(Normalize(Lower(data)), Normalize(Lower(query)))
  }

  /** The query a field is compared with: the search text for `value`, the
      whole input for every other field. */
  function QueryFor(key: string, input: string, searchText: string): string
  {
    if key == "value" then searchText else input
  }

  /** One own property makes the option match: its key is a suggest field and
      its value contains the query for that key. */
  predicate FieldMatches(f: Field, suggestFields: seq<string>, input: string, searchText: string)
  {
    f.0 in suggestFields && Matches(f.1, QueryFor(f.0, input, searchText))
  }

  /** The `for (var key in option)` loop with its early `return true`. */
  function SearchFields(fields: seq<Field>, suggestFields: seq<string>, input: string, searchText: string): (b: bool)
    ensures b <==> exists i :: 0 <= i < |fields| && FieldMatches(fields[i], suggestFields, input, searchText)
  {
    if fields == [] then false
    else if FieldMatches(fields[0], suggestFields, input, searchText) then true
    else
      var b := SearchFields(fields[1..], suggestFields, input, searchText);
      assert forall i :: 1 <= i < |fields| ==> fields[i] == fields[1..][i - 1];
      b
  }

  /** `_filterOption(option, input)` for a service with the given `querySize`
      and `suggestFields`: every option matches the empty input; otherwise the
      option (its `data` when it has one) matches when some own property does. */
  function FilterOption(option: TagOption, input: string, querySize: nat, suggestFields: seq<string>): (b: bool)
    ensures |input| == 0 ==> b
    ensures |input| > 0 ==>
      (b <==> exists i :: 0 <= i < |Unwrap(option)| &&
                 FieldMatches(Unwrap(option)[i], suggestFields, input, SearchText(input, querySize)))
  {
    if |input| == 0 then true
    else SearchFields(Unwrap(option), suggestFields, input, SearchText(input, querySize))
  }

  /** `e => _filterOption(e, searchText)`, the predicate `loadOptions` filters
      the defaults with. */
  function Matching(searchText: string, querySize: nat, suggestFields: seq<string>): TagOption -> bool
  {
    o => FilterOption(o, searchText, querySize, suggestFields)
  }

  /** The order in which `for-in` visits the keys does not change the verdict. */
  lemma KeyOrderIrrelevant(fields: seq<Field>, fields': seq<Field>, suggestFields: seq<string>, input: string, searchText: string)
    requires multiset(fields) == multiset(fields')
    ensures SearchFields(fields, suggestFields, input, searchText) == SearchFields(fields', suggestFields, input, searchText)
  {
    if SearchFields(fields, suggestFields, input, searchText) {
      var i :| 0 <= i < |fields| && FieldMatches(fields[i], suggestFields, input, searchText);
      assert fields[i] in multiset(fields');
      var j :| 0 <= j < |fields'| && fields'[j] == fields[i];
    }
    if SearchFields(fields', suggestFields, input, searchText) {
      var j :| 0 <= j < |fields'| && FieldMatches(fields'[j], suggestFields, input, searchText);
      assert fields'[j] in multiset(fields);
      var i :| 0 <= i < |fields| && fields[i] == fields'[j];
    }
  }

  /** A field outside `suggestFields` never makes an option match. */
  lemma OnlySuggestFieldsMatter(option: TagOption, input: string, querySize: nat, suggestFields: seq<string>)
    requires |input| > 0
    requires forall i :: 0 <= i < |Unwrap(option)| ==> Unwrap(option)[i].0 !in suggestFields
    ensures !FilterOption(option, input, querySize, suggestFields)
  {
  }

  /** `loadOptions` hands `_filterOption` the last chunk instead of the input,
      and the last chunk of a last chunk is itself: so in `loadOptions` every
      suggest field, `label` included, is compared with the last chunk. */
  lemma LoadOptionsComparesLastChunk(option: TagOption, input: string, querySize: nat, suggestFields: seq<string>)
    requires |input| > 0 && querySize > 0
    ensures var t := LastChunk(input, querySize);
      FilterOption(option, t, querySize, suggestFields) <==>
        exists i :: 0 <= i < |Unwrap(option)| && Unwrap(option)[i].0 in suggestFields && Matches(Unwrap(option)[i].1, t)
  {
    var t := LastChunk(input, querySize);
    LastChunkIdempotent(input, querySize);
    assert SearchText(t, querySize) == t;
    var fs := Unwrap(option);
    assert forall i :: 0 <= i < |fs| ==> (FieldMatches(fs[i], suggestFields, t, t) <==> fs[i].0 in suggestFields && Matches(fs[i].1, t));
  }

  // ---------------------------------------------------------------------------
  // Matching ignores case and accents
  // ---------------------------------------------------------------------------

  lemma ARowIsLower() ensures forall c :: c in AVariants ==> LowerChar(c) == c {}
  lemma ERowIsLower() ensures forall c :: c in EVariants ==> LowerChar(c) == c {}
  lemma IRowIsLower() ensures forall c :: c in IVariants ==> LowerChar(c) == c {}
  lemma ORowIsLower() ensures forall c :: c in OVariants ==> LowerChar(c) == c {}
  lemma URowIsLower() ensures forall c :: c in UVariants ==> LowerChar(c) == c {}
  lemma YRowIsLower() ensures forall c :: c in YVariants ==> LowerChar(c) == c {}
  lemma DRowIsLower() ensures forall c :: c in DVariants ==> LowerChar(c) == c {}

  /** Every variant in the table is already lower case, and so is every base. */
  lemma RowIsLower(k: nat)
    requires k < |VietnameseMap|
    ensures LowerChar(VietnameseMap[k].base) == VietnameseMap[k].base
    ensures forall c :: c in VietnameseMap[k].variants ==> LowerChar(c) == c
  {
    if k == 0 { ARowIsLower(); }
    else if k == 1 { ERowIsLower(); }
    else if k == 2 { IRowIsLower(); }
    else if k == 3 { ORowIsLower(); }
    else if k == 4 { URowIsLower(); }
    else if k == 5 { YRowIsLower(); }
    else { DRowIsLower(); }
  }

  /** What the normalizer does to one character. */
  function NormalChar(c: char): char
  {
    FoldChar(if c == '-' then ' ' else c)
  }

  lemma NormalizeAt(s: string, i: nat)
    requires i < |s|
    ensures |Normalize(s)| == |s| && Normalize(s)[i] == NormalChar(s[i])
  {
  }

  /** For one character: folding before lower-casing and folding changes nothing. */
  lemma NormalLowerCharAbsorbs(c: char)
    ensures NormalChar(LowerChar(NormalChar(c))) == NormalChar(LowerChar(c))
  {
    BasesAreNotVariants();
    if c == '-' {
    } else if IsVariant(c) {
      var k :| 0 <= k < |VietnameseMap| && c in VietnameseMap[k].variants;
      RowIsLower(k);
      assert NormalChar(c) == VietnameseMap[k].base;
    }
  }

  /** Folding accents before lower-casing and folding changes nothing. */
  lemma NormalizeLowerAbsorbs(s: string)
    ensures Normalize(Lower(Normalize(s))) == Normalize(Lower(s))
  {
    var n := Normalize(s);
    var a, b := Normalize(Lower(n)), Normalize(Lower(s));
    forall i | 0 <= i < |s|
      ensures a[i] == b[i]
    {
      NormalizeAt(s, i);
      NormalizeAt(Lower(n), i);
      NormalizeAt(Lower(s), i);
      NormalLowerCharAbsorbs(s[i]);
    }
  }

  /** Lower-casing the field or the query first changes nothing. */
  lemma MatchesIgnoresCase(data: string, query: string)
    ensures Matches(Lower(data), query) == Matches(data, query)
    ensures Matches(data, Lower(query)) == Matches(data, query)
  {
    LowerIdempotent(data);
    LowerIdempotent(query);
  }

  /** Accent-folding the field or the query first changes nothing: a field
      written with accents matches a query written without them. */
  lemma MatchesIgnoresAccents(data: string, query: string)
    ensures Matches(Normalize(data), query) == Matches(data, query)
    ensures Matches(data, Normalize(query)) == Matches(data, query)
  {
    NormalizeLowerAbsorbs(data);
    NormalizeLowerAbsorbs(query);
  }
}

/** The options the picker offers and selects, and the two lookups the
    service does over lists of them: `find` by `value` and `_.uniqBy(…, 'value')`. */
module TagOptions {
  import opened Builtins

  /** One own property of an option object, with its value as a string. */
  type Field = (string, string)

  /** An option object: its own properties in key order and, when it has a
      `data` property, the object that property holds (the option proper).
      The type also admits values no object has: two properties with the
      same key (`Lookup` reads the first), or a `"data"` entry in `fields`
      while `data` is `None` (such an option is not unwrapped). */
  datatype TagOption = TagOption(fields: seq<Field>, data: Option<seq<Field>>)

  /** The literal `{}`. */
  const EmptyObject: TagOption := TagOption([], None)

  /** What the service holds as its default options: an array, or some other
      value a caller passed in that is not an array and has no `filter`
      method. */
  datatype Defaults = Array(items: seq<TagOption>) | NonArray

  /** Keys of an object are distinct. */
  ghost predicate DistinctKeys(fields: seq<Field>)
  {
    forall i, j :: 0 <= i < j < |fields| ==> fields[i].0 != fields[j].0
  }

  /** `obj[key]`: the value of the property named `key`, or undefined. */
  function Lookup(fields: seq<Field>, key: string): (r: Option<string>)
    ensures r.None? <==> forall i :: 0 <= i < |fields| ==> fields[i].0 != key
    ensures r.Some? ==> exists i :: 0 <= i < |fields| && fields[i] == (key, r.value)
  {
    if fields == [] then None
    else if fields[0].0 == key then Some(fields[0].1)
    else
      var r := Lookup(fields[1..], key);
      assert forall i :: 1 <= i < |fields| ==> fields[i] == fields[1..][i - 1];
      r
  }

  /** In an object with distinct keys, a listed property is what `obj[key]` reads. */
  lemma LookupListed(fields: seq<Field>, i: nat)
    requires DistinctKeys(fields) && i < |fields|
    ensures Lookup(fields, fields[i].0) == Some(fields[i].1)
  {
    var r := Lookup(fields, fields[i].0);
    var j :| 0 <= j < |fields| && fields[j] == (fields[i].0, r.value);
    assert i == j;
  }

  /** `opt.value` on the outer object. */
  function ValueOf(o: TagOption): Option<string>
  {
    Lookup(o.fields, "value")
  }

  /** `option.hasOwnProperty("data") ? option["data"] : option`. */
  function Unwrap(o: TagOption): (fields: seq<Field>)
    ensures o.data.Some? ==> fields == o.data.value
    ensures o.data.None? ==> fields == o.fields
  {
    if o.data.Some? then o.data.value else o.fields
  }

  // ---------------------------------------------------------------------------
  // Looking options up by `value`
  // ---------------------------------------------------------------------------

  /** The position of the first option whose `value` is `key`, or `|xs|`. */
  function FirstIndex(xs: seq<TagOption>, key: Option<string>): (i: nat)
    ensures i <= |xs|
    ensures i < |xs| ==> ValueOf(xs[i]) == key
    ensures forall j :: 0 <= j < i ==> ValueOf(xs[j]) != key
  {
    if xs == [] then 0
    else if ValueOf(xs[0]) == key then 0
    else 1 + FirstIndex(xs[1..], key)
  }

  /** `xs.find(opt => opt.value == query)`. */
  function Find(xs: seq<TagOption>, query: string): (r: Option<TagOption>)
    ensures r.None? <==> forall j :: 0 <= j < |xs| ==> ValueOf(xs[j]) != Some(query)
    ensures r.Some? ==> r.value in xs && ValueOf(r.value) == Some(query)
    ensures r.Some? ==> r.value == xs[FirstIndex(xs, Some(query))]
  {
    var i := FirstIndex(xs, Some(query));
    if i < |xs| then Some(xs[i]) else None
  }

  /** Some option of the list has `value` `key`. */
  predicate HasValue(xs: seq<TagOption>, key: Option<string>)
  {
    FirstIndex(xs, key) < |xs|
  }

  /** No two options of the list share a `value`. */
  ghost predicate UniqueValues(xs: seq<TagOption>)
  {
    forall i, j :: 0 <= i < j < |xs| ==> ValueOf(xs[i]) != ValueOf(xs[j])
  }

  /** The first occurrence of a value in `init + [x]`. */
  lemma FirstIndexSnoc(init: seq<TagOption>, x: TagOption, key: Option<string>)
    ensures FirstIndex(init + [x], key) ==
      if FirstIndex(init, key) < |init| then FirstIndex(init, key)
      else if ValueOf(x) == key then |init|
      else |init| + 1
  {
    var xs := init + [x];
    var i, i' := FirstIndex(init, key), FirstIndex(xs, key);
    if i < |init| {
      assert xs[i] == init[i];
      assert i' < |init| ==> xs[i'] == init[i'];
    } else {
      assert forall j :: 0 <= j < |init| ==> xs[j] == init[j];
      assert xs[|init|] == x;
    }
  }

  // ---------------------------------------------------------------------------
  // _.uniqBy(xs, 'value')
  // ---------------------------------------------------------------------------

  /** `r` is the list of first occurrences of the values of `xs`:
      no value twice, the same values as `xs`, each entry the first option
      of `xs` with its value, and the entries in the order of those first
      occurrences. */
  ghost predicate FirstOccurrences(r: seq<TagOption>, xs: seq<TagOption>)
  {
    && UniqueValues(r)
    && (forall key :: HasValue(r, key) <==> HasValue(xs, key))
    && (forall k {:trigger FirstIndex(xs, ValueOf(r[k]))} :: 0 <= k < |r| ==>
          FirstIndex(xs, ValueOf(r[k])) < |xs| && xs[FirstIndex(xs, ValueOf(r[k]))] == r[k])
    && (forall k, l {:trigger FirstIndex(xs, ValueOf(r[k])), FirstIndex(xs, ValueOf(r[l]))} :: 0 <= k < l < |r| ==>
          FirstIndex(xs, ValueOf(r[k])) < FirstIndex(xs, ValueOf(r[l])))
  }

  /** The first option of each `value`, in the order those first occurrences
      appear. An option without a `value` counts as having the value
      `undefined`, so only the first such option is kept. */
  function UniqBy(xs: seq<TagOption>): (r: seq<TagOption>)
    ensures |r| <= |xs|
    decreases |xs|
  {
    if xs == [] then []
    else
      var p := UniqBy(xs[..|xs| - 1]);
      if HasValue(p, ValueOf(xs[|xs| - 1])) then p else p + [xs[|xs| - 1]]
  }

  /** `uniqBy` returns the first occurrences of the values of its input. */
  lemma {:induction false} UniqByFirstOccurrences(xs: seq<TagOption>)
    ensures FirstOccurrences(UniqBy(xs), xs)
    decreases |xs|
  {
    if xs != [] {
      var init, x := xs[..|xs| - 1], xs[|xs| - 1];
      var p := UniqBy(init);
      UniqByFirstOccurrences(init);
      assert xs == init + [x];
      if HasValue(p, ValueOf(x)) {
        UniqByStepSeen(p, init, x);
      } else {
        UniqByStepNew(p, init, x);
      }
    }
  }

  /** Appending one option whose value was seen drops it. */
  lemma UniqByStepSeen(p: seq<TagOption>, init: seq<TagOption>, x: TagOption)
    requires FirstOccurrences(p, init) && HasValue(p, ValueOf(x))
    ensures FirstOccurrences(p, init + [x])
  {
    forall key {
      FirstIndexSnoc(init, x, key);
    }
  }

  /** Appending one option with a new value adds it at the end. */
  lemma UniqByStepNew(p: seq<TagOption>, init: seq<TagOption>, x: TagOption)
    requires FirstOccurrences(p, init) && !HasValue(p, ValueOf(x))
    ensures FirstOccurrences(p + [x], init + [x])
  {
    var xs, r := init + [x], p + [x];
    assert forall k :: 0 <= k < |p| ==> r[k] == p[k];
    forall key
      ensures HasValue(r, key) <==> HasValue(xs, key)
    {
      FirstIndexSnoc(init, x, key);
      FirstIndexSnoc(p, x, key);
      assert HasValue(p, key) <==> HasValue(init, key);
    }
    forall i, j | 0 <= i < j < |r|
      ensures ValueOf(r[i]) != ValueOf(r[j])
    {
      if j == |p| {
        assert FirstIndex(p, ValueOf(p[i])) <= i;
      }
    }
    NewKeepsFirstIndices(p, init, x);
  }

  lemma NewKeepsFirstIndices(p: seq<TagOption>, init: seq<TagOption>, x: TagOption)
    requires FirstOccurrences(p, init) && !HasValue(p, ValueOf(x))
    ensures var xs, r := init + [x], p + [x];
      && (forall k :: 0 <= k < |r| ==> FirstIndex(xs, ValueOf(r[k])) < |xs| && xs[FirstIndex(xs, ValueOf(r[k]))] == r[k])
      && (forall k, l :: 0 <= k < l < |r| ==> FirstIndex(xs, ValueOf(r[k])) < FirstIndex(xs, ValueOf(r[l])))
  {
    var xs, r := init + [x], p + [x];
    assert !HasValue(init, ValueOf(x));
    forall k | 0 <= k < |r|
      ensures FirstIndex(xs, ValueOf(r[k])) < |xs| && xs[FirstIndex(xs, ValueOf(r[k]))] == r[k]
    {
      FirstIndexSnoc(init, x, ValueOf(r[k]));
      if k < |p| {
        assert r[k] == p[k];
      }
    }
    forall k, l | 0 <= k < l < |r|
      ensures FirstIndex(xs, ValueOf(r[k])) < FirstIndex(xs, ValueOf(r[l]))
    {
      FirstIndexSnoc(init, x, ValueOf(r[k]));
      FirstIndexSnoc(init, x, ValueOf(r[l]));
      assert r[k] == p[k];
      if l < |p| {
        assert r[l] == p[l];
      }
    }
  }

  /** Concatenating a list after `a` does not move the first occurrence of a
      value `a` already has. */
  lemma FirstIndexAppend(a: seq<TagOption>, b: seq<TagOption>, key: Option<string>)
    requires HasValue(a, key)
    ensures FirstIndex(a + b, key) == FirstIndex(a, key)
  {
    var xs := a + b;
    var i, i' := FirstIndex(a, key), FirstIndex(xs, key);
    assert xs[i] == a[i];
    assert i' < |a| ==> xs[i'] == a[i'];
  }

  /** `uniqBy` of a list with one more option at the end: the option is kept
      exactly when its value is new. */
  lemma UniqBySnoc(init: seq<TagOption>, x: TagOption)
    ensures UniqBy(init + [x]) ==
      if HasValue(UniqBy(init), ValueOf(x)) then UniqBy(init) else UniqBy(init) + [x]
  {
    assert (init + [x])[..|init|] == init;
  }

  /** A list whose values are already distinct is its own `uniqBy`. */
  lemma {:induction false} UniqByOfUnique(xs: seq<TagOption>)
    requires UniqueValues(xs)
    ensures UniqBy(xs) == xs
    decreases |xs|
  {
    if xs != [] {
      var init, x := xs[..|xs| - 1], xs[|xs| - 1];
      assert xs == init + [x];
      assert UniqueValues(init) by {
        assert forall j :: 0 <= j < |init| ==> init[j] == xs[j];
      }
      UniqByOfUnique(init);
      forall j | 0 <= j < |init|
        ensures ValueOf(init[j]) != ValueOf(x)
      {
        assert init[j] == xs[j];
      }
      UniqBySnoc(init, x);
    }
  }

  /** Merging new options into a selection with distinct values keeps the
      whole selection, unchanged, at the front. */
  lemma {:induction false} MergeKeepsSelection(selected: seq<TagOption>, added: seq<TagOption>)
    requires UniqueValues(selected)
    ensures |UniqBy(selected + added)| >= |selected|
    ensures UniqBy(selected + added)[..|selected|] == selected
    decreases |added|
  {
    if added == [] {
      assert selected + added == selected;
      UniqByOfUnique(selected);
    } else {
      var init, y := added[..|added| - 1], added[|added| - 1];
      MergeKeepsSelection(selected, init);
      AppendSnoc(selected, added);
      MergeStep(selected, selected + init, y);
    }
  }

  lemma AppendSnoc(a: seq<TagOption>, b: seq<TagOption>)
    requires |b| > 0
    ensures a + b == (a + b[..|b| - 1]) + [b[|b| - 1]]
  {
    assert b == b[..|b| - 1] + [b[|b| - 1]];
  }

  lemma MergeStep(selected: seq<TagOption>, xs: seq<TagOption>, y: TagOption)
    requires |UniqBy(xs)| >= |selected| && UniqBy(xs)[..|selected|] == selected
    ensures |UniqBy(xs + [y])| >= |selected| && UniqBy(xs + [y])[..|selected|] == selected
  {
    UniqBySnoc(xs, y);
    PrefixOfSnoc(UniqBy(xs), UniqBy(xs + [y]), y, |selected|);
  }

  /** Keeping or appending one element does not change a prefix. */
  lemma PrefixOfSnoc(p: seq<TagOption>, q: seq<TagOption>, y: TagOption, n: nat)
    requires n <= |p| && (q == p || q == p + [y])
    ensures n <= |q| && q[..n] == p[..n]
  {
    assert (p + [y])[..n] == p[..n];
  }

  /** In a merge, an option whose value the selection already has is the
      selection's own option: a pre-existing selection wins. */
  lemma SelectionWins(selected: seq<TagOption>, added: seq<TagOption>, k: nat)
    requires k < |UniqBy(selected + added)|
    requires HasValue(selected, ValueOf(UniqBy(selected + added)[k]))
    ensures var o := UniqBy(selected + added)[k]; o == selected[FirstIndex(selected, ValueOf(o))]
  {
    var xs, o := selected + added, UniqBy(selected + added)[k];
    UniqByFirstOccurrences(xs);
    FirstIndexAppend(selected, added, ValueOf(o));
    assert xs[FirstIndex(selected, ValueOf(o))] == selected[FirstIndex(selected, ValueOf(o))];
  }
}

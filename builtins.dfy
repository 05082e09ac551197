/** The handful of JavaScript built-ins the suggestion service relies on:
    `undefined` (Option), a call that throws (Completion),
    `String.prototype.toLowerCase`, `String.prototype.indexOf`,
    `Array.prototype.filter` and `Array.prototype.join("")`. */
module Builtins {

  /** A value that may be `undefined`. */
  datatype Option<T> = None | Some(value: T)

  /** How a call ends: it returns a value or it throws. */
  datatype Completion<T> = Returned(value: T) | Threw(error: string)

  // ---------------------------------------------------------------------------
  // toLowerCase
  // ---------------------------------------------------------------------------

  /** Lower-case mapping of one character: ASCII, Latin-1 and every upper-case
      Vietnamese letter; every other character is its own lower case. */
  function LowerChar(c: char): char
  {
    if 'A' <= c <= 'Z' then (c as int + 32) as char
    else if '\U{C0}' <= c <= '\U{DE}' && c != '\U{D7}' then (c as int + 32) as char
    else if c == '\U{102}' || c == '\U{110}' || c == '\U{128}' || c == '\U{168}' || c == '\U{1A0}' || c == '\U{1AF}'
    then (c as int + 1) as char
    else if '\U{1EA0}' <= c <= '\U{1EF8}' && (c as int) % 2 == 0 then (c as int + 1) as char
    else c
  }

  /** `s.toLowerCase()`, one character at a time. */
  function Lower(s: string): (r: string)
    ensures |r| == |s|
    ensures forall i :: 0 <= i < |s| ==> r[i] == LowerChar(s[i])
  {
    if s == [] then [] else [LowerChar(s[0])] + Lower(s[1..])
  }

  /** Lower-casing a lower-cased string changes nothing. */
  lemma LowerIdempotent(s: string)
    ensures Lower(Lower(s)) == Lower(s)
  {
    var t := Lower(s);
    forall i | 0 <= i < |t|
      ensures LowerChar(t[i]) == t[i]
    {
      var c := s[i];
      if '\U{1EA0}' <= c <= '\U{1EF8}' && (c as int) % 2 == 0 {
        assert (t[i] as int) % 2 == 1;
      }
    }
  }

  // ---------------------------------------------------------------------------
  // indexOf
  // ---------------------------------------------------------------------------

  /** `needle` occurs in `hay` starting at position `i`. */
  ghost predicate OccursAt(needle: string, hay: string, i: int)
  {
    0 <= i && i + |needle| <= |hay| && hay[i..i + |needle|] == needle
  }

  /** The first occurrence of `needle` in `hay` at or after `from`, or -1. */
  function IndexOfFrom(hay: string, needle: string, from: nat): (r: int)
    decreases |hay| - from
    ensures r == -1 || (from <= r && OccursAt(needle, hay, r))
    ensures r == -1 ==> forall i :: from <= i ==> !OccursAt(needle, hay, i)
    ensures r != -1 ==> forall i :: from <= i < r ==> !OccursAt(needle, hay, i)
  {
    if from + |needle| > |hay| then -1
    else if hay[from..from + |needle|] == needle then from
    else IndexOfFrom(hay, needle, from + 1)
  }

  /** `hay.indexOf(needle)`: the first position where `needle` occurs, or -1. */
  function IndexOf(hay: string, needle: string): (r: int)
    ensures r >= -1
    ensures r >= 0 <==> exists i :: OccursAt(needle, hay, i)
    ensures r >= 0 ==> OccursAt(needle, hay, r) && forall i :: 0 <= i < r ==> !OccursAt(needle, hay, i)
  {
    IndexOfFrom(hay, needle, 0)
  }

  /** `hay.indexOf(needle) >= 0`. */
  function Contains(hay: string, needle: string): (b: bool)
    ensures b <==> exists i :: OccursAt(needle, hay, i)
  {
    IndexOf(hay, needle) >= 0
  }

  // ---------------------------------------------------------------------------
  // filter and join
  // ---------------------------------------------------------------------------

  /** `xs.filter(p)`. */
  function Filter<T>(xs: seq<T>, p: T -> bool): (r: seq<T>)
    ensures |r| <= |xs|
  {
    if xs == [] then [] else (if p(xs[0]) then [xs[0]] else []) + Filter(xs[1..], p)
  }

  /** The filter keeps exactly the elements that pass. */
  lemma {:induction false} FilterMembers<T>(xs: seq<T>, p: T -> bool)
    ensures forall i :: 0 <= i < |Filter(xs, p)| ==> Filter(xs, p)[i] in xs && p(Filter(xs, p)[i])
    ensures forall i :: 0 <= i < |xs| && p(xs[i]) ==> xs[i] in Filter(xs, p)
  {
    if xs != [] {
      FilterMembers(xs[1..], p);
      assert forall i :: 1 <= i < |xs| ==> xs[i] == xs[1..][i - 1];
    }
  }

  /** Filtering keeps the order: filtering a concatenation concatenates the
      filtered parts. */
  lemma {:induction false} FilterAppend<T>(a: seq<T>, b: seq<T>, p: T -> bool)
    ensures Filter(a + b, p) == Filter(a, p) + Filter(b, p)
  {
    if a == [] {
      assert a + b == b;
    } else {
      var h := if p(a[0]) then [a[0]] else [];
      assert (a + b)[0] == a[0] && (a + b)[1..] == a[1..] + b;
      FilterAppend(a[1..], b, p);
      assert Filter(a + b, p) == h + Filter(a[1..] + b, p);
      assert h + (Filter(a[1..], p) + Filter(b, p)) == (h + Filter(a[1..], p)) + Filter(b, p);
    }
  }

  /** A filter that every element passes returns its input. */
  lemma {:induction false} FilterAll<T>(xs: seq<T>, p: T -> bool)
    requires forall i :: 0 <= i < |xs| ==> p(xs[i])
    ensures Filter(xs, p) == xs
  {
    if xs != [] {
      FilterAll(xs[1..], p);
    }
  }

  /** `parts.join("")`. */
  function Join(parts: seq<string>): (r: string)
  {
    if parts == [] then "" else parts[0] + Join(parts[1..])
  }

  /** Joining a concatenation concatenates the joins. */
  lemma {:induction false} JoinAppend(a: seq<string>, b: seq<string>)
    ensures Join(a + b) == Join(a) + Join(b)
  {
    if a == [] {
      assert a + b == b;
    } else {
      assert (a + b)[0] == a[0] && (a + b)[1..] == a[1..] + b;
      JoinAppend(a[1..], b);
      assert a[0] + (Join(a[1..]) + Join(b)) == (a[0] + Join(a[1..])) + Join(b);
    }
  }
}

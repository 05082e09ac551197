/** Splitting a query into fixed-size pieces, as
    `_.chunk(input.split(""), size).map(a => a.join(""))` does. */
module Chunking {
  import opened Builtins

  /** The pieces of `s`, each `size` characters long except the last, which
      may be shorter; the empty string has no pieces. */
  function Chunks(s: string, size: nat): (r: seq<string>)
    requires size > 0
    decreases |s|
    ensures Join(r) == s
    ensures forall k :: 0 <= k < |r| - 1 ==> |r[k]| == size
    ensures |r| > 0 ==> 0 < |r[|r| - 1]| <= size
    ensures |r| == 0 <==> |s| == 0
  {
    if |s| == 0 then []
    else if |s| <= size then
      assert Join([s]) == s + Join([]);
      [s]
    else
      var rest := Chunks(s[size..], size);
      var r := [s[..size]] + rest;
      assert r[1..] == rest;
      assert s == s[..size] + s[size..];
      r
  }

  /** Every piece but the last is full, the last is not empty and not too long. */
  ghost predicate IsChunking(pieces: seq<string>, size: nat)
  {
    && (forall k :: 0 <= k < |pieces| - 1 ==> |pieces[k]| == size)
    && (|pieces| > 0 ==> 0 < |pieces[|pieces| - 1]| <= size)
  }

  /** The pieces are determined by the string: any chunking of `s` into
      pieces of `size` is the one `Chunks` returns. */
  lemma {:induction false} ChunksUnique(s: string, size: nat, pieces: seq<string>)
    requires size > 0
    requires Join(pieces) == s && IsChunking(pieces, size)
    ensures pieces == Chunks(s, size)
    decreases |pieces|
  {
    if pieces == [] {
    } else if |pieces| == 1 {
      assert pieces[1..] == [];
      assert s == pieces[0] + Join(pieces[1..]) == pieces[0];
      assert pieces == [s];
    } else {
      var rest := pieces[1..];
      assert Join(pieces) == pieces[0] + Join(rest);
      assert |pieces[0]| == size;
      assert s[..size] == pieces[0] && s[size..] == Join(rest);
      assert |Join(rest)| > 0 by {
        assert |rest[|rest| - 1]| > 0;
        JoinAppend(rest[..|rest| - 1], [rest[|rest| - 1]]);
        assert rest[..|rest| - 1] + [rest[|rest| - 1]] == rest;
      }
      ChunksUnique(s[size..], size, rest);
      assert pieces == [pieces[0]] + rest;
    }
  }

  /** The last piece of a non-empty string: the service's `searchText`. */
  function LastChunk(s: string, size: nat): (r: string)
    requires |s| > 0 && size > 0
    ensures 0 < |r| <= size && |r| <= |s|
    ensures r == s[|s| - |r|..]
  {
    var cs := Chunks(s, size);
    LastChunkIsSuffix(s, size);
    cs[|cs| - 1]
  }

  lemma {:induction false} LastChunkIsSuffix(s: string, size: nat)
    requires |s| > 0 && size > 0
    ensures var cs := Chunks(s, size); |cs[|cs| - 1]| <= |s| && cs[|cs| - 1] == s[|s| - |cs[|cs| - 1]|..]
    decreases |s|
  {
    if |s| > size {
      LastChunkIsSuffix(s[size..], size);
      var cs, rest := Chunks(s, size), Chunks(s[size..], size);
      assert cs[|cs| - 1] == rest[|rest| - 1];
    }
  }

  /** A string no longer than `size` is a single piece, so it is its own last
      piece; in particular the last piece of a last piece is itself. */
  lemma ShortIsOneChunk(s: string, size: nat)
    requires 0 < |s| <= size
    ensures Chunks(s, size) == [s] && LastChunk(s, size) == s
  {
  }

  lemma LastChunkIdempotent(s: string, size: nat)
    requires |s| > 0 && size > 0
    ensures LastChunk(LastChunk(s, size), size) == LastChunk(s, size)
  {
    ShortIsOneChunk(LastChunk(s, size), size);
  }
}

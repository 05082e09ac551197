/** Worked examples: the normalizer on single letters, chunking of a pasted
    code, the merge that keeps a pre-existing selection, and two paste
    scenarios against a service with defaults `01` and `02`. */
module Scenarios {
  import opened Builtins
  import opened Normalizer
  import opened Chunking
  import opened TagOptions
  import opened Resolver
  import opened Service

  const OptA: TagOption := TagOption([("value", "01"), ("label", "A")], None)
  const OptB: TagOption := TagOption([("value", "02"), ("label", "B")], None)
  const OptC: TagOption := TagOption([("value", "03"), ("label", "C")], None)
  const Dup: TagOption := TagOption([("value", "01"), ("label", "dup")], None)

  // ---------------------------------------------------------------------------
  // Normalizer
  // ---------------------------------------------------------------------------

  lemma NormalizeAcute()
    ensures Normalize("á") == "a"
  {
    assert 'á' in VietnameseMap[0].variants;
    var r := Normalize("á");
    assert r[0] == 'a';
  }

  lemma NormalizeStroke()
    ensures Normalize("đ") == "d"
  {
    assert 'đ' in VietnameseMap[6].variants;
    var r := Normalize("đ");
    assert r[0] == 'd';
  }

  /** After lower-casing, `Bộ` folds to `bo`. */
  lemma NormalizeLowerBo()
    ensures Normalize(Lower("Bộ")) == "bo"
  {
    var l := Lower("Bộ");
    assert l[0] == 'b' && l[1] == 'ộ';
    assert 'ộ' in VietnameseMap[3].variants;
    assert !IsVariant('b') by {
      forall k | 0 <= k < |VietnameseMap| ensures 'b' !in VietnameseMap[k].variants {
        RowInZone(k);
      }
    }
    var r := Normalize(l);
    assert r[0] == 'b' && r[1] == 'o';
  }

  // ---------------------------------------------------------------------------
  // Chunking
  // ---------------------------------------------------------------------------

  /** `0102` in chunks of two is `01`, `02`; the search text is `02`. */
  lemma ChunkExample()
    ensures Chunks("0102", 2) == ["01", "02"]
    ensures LastChunk("0102", 2) == "02"
  {
    assert "0102"[..2] == "01" && "0102"[2..] == "02";
  }

  // ---------------------------------------------------------------------------
  // Lookups by value
  // ---------------------------------------------------------------------------

  lemma ValuesOfExamples()
    ensures ValueOf(OptA) == Some("01") && ValueOf(OptB) == Some("02")
    ensures ValueOf(OptC) == Some("03") && ValueOf(Dup) == Some("01")
  {
  }

  lemma FindExamples()
    ensures Find([OptA, OptB], "01") == Some(OptA)
    ensures Find([OptA, OptB], "02") == Some(OptB)
    ensures Find([OptA, OptB], "03") == None
  {
    ValuesOfExamples();
    assert [OptA, OptB][1..] == [OptB] && [OptB][1..] == [];
    assert FirstIndex([OptB], Some("02")) == 0;
    assert FirstIndex([OptB], Some("03")) == 1;
  }

  lemma NoTwoYet()
    ensures !HasValue([OptA], Some("02"))
  {
    ValuesOfExamples();
    assert [OptA][1..] == [];
  }

  /** The merge of `[01]` with `[01 dup, 02]` keeps the pre-existing `01`. */
  lemma MergeExample()
    ensures UniqBy([OptA] + [Dup, OptB]) == [OptA, OptB]
  {
    ValuesOfExamples();
    assert [OptA] + [Dup, OptB] == [OptA, Dup] + [OptB];
    MergeFirstTwo();
    NoTwoYet();
    UniqBySnoc([OptA, Dup], OptB);
  }

  lemma MergeFirstTwo()
    ensures UniqBy([OptA, Dup]) == [OptA]
  {
    ValuesOfExamples();
    assert [OptA, Dup] == [OptA] + [Dup];
    assert UniqBy([OptA]) == [OptA] by {
      assert [OptA] == [] + [OptA];
      UniqBySnoc([], OptA);
    }
    UniqBySnoc([OptA], Dup);
    assert FirstIndex([OptA], Some("01")) == 0;
  }

  // ---------------------------------------------------------------------------
  // Pasting codes
  // ---------------------------------------------------------------------------

  lemma LocalPassBothKnown()
    ensures LocalMatches(["01", "02"], [OptA, OptB]) == [OptA, OptB]
    ensures UnmatchedChunks(["01", "02"], [OptA, OptB]) == []
  {
    FindExamples();
    assert ["01", "02"][1..] == ["02"] && ["02"][1..] == [];
    assert LocalMatches(["02"], [OptA, OptB]) == [OptB];
    assert UnmatchedChunks(["02"], [OptA, OptB]) == [];
  }

  lemma LocalPassOneUnknown()
    ensures LocalMatches(["01", "03"], [OptA, OptB]) == [OptA]
    ensures UnmatchedChunks(["01", "03"], [OptA, OptB]) == ["03"]
  {
    FindExamples();
    assert ["01", "03"][1..] == ["03"] && ["03"][1..] == [];
    assert LocalMatches(["03"], [OptA, OptB]) == [];
    assert UnmatchedChunks(["03"], [OptA, OptB]) == ["03"];
  }

  lemma ChunkExampleUnknown()
    ensures Chunks("0103", 2) == ["01", "03"]
  {
    assert "0103"[..2] == "01" && "0103"[2..] == "03";
  }

  lemma DefaultsUnique()
    ensures UniqBy([OptA, OptB]) == [OptA, OptB]
  {
    ValuesOfExamples();
    UniqByOfUnique([OptA, OptB]);
  }

  lemma FallbackUnique()
    ensures UniqBy([OptA, OptC]) == [OptA, OptC]
  {
    ValuesOfExamples();
    UniqByOfUnique([OptA, OptC]);
  }

  /** Pasting `0102` with both codes among the defaults and no fast query:
      both resolve locally, in chunk order, and nothing is sent. */
  method PasteResolvedLocally() returns (result: seq<TagOption>, request: Option<string>)
    ensures result == [OptA, OptB] && request == None
  {
    var service := new SuggestionService(Array([OptA, OptB]), 2);
    ChunkExample();
    LocalPassBothKnown();
    DefaultsUnique();
    result, request := service.HandleTapPressed([], "0102", 2);
    assert [] + ([OptA, OptB] + []) == [OptA, OptB];
  }

  /** A fast-query loader that knows the code `03`. */
  function FastCodes(batch: string): seq<TagOption>
  {
    if batch == "03" then [OptC] else []
  }

  /** What the service computes for `0103` against the defaults `01`, `02`. */
  lemma RemoteFallbackFacts()
    ensures PendingOf(Array([OptA, OptB]), Chunks("0103", 2)) == ["03"]
    ensures LocalMatchesOf(Array([OptA, OptB]), Chunks("0103", 2)) == [OptA]
    ensures Join(["03"]) == "03"
    ensures UniqBy([] + ([OptA] + [OptC])) == [OptA, OptC]
  {
    ChunkExampleUnknown();
    LocalPassOneUnknown();
    FallbackUnique();
    assert [] + ([OptA] + [OptC]) == [OptA, OptC];
  }

  /** Pasting `0103` where only `01` is a default: `03` goes to the fast
      query, alone, and its answer follows the local match. */
  method PasteWithRemoteFallback() returns (result: seq<TagOption>, request: Option<string>)
    ensures result == [OptA, OptC] && request == Some("03")
  {
    var service := new SuggestionService(Array([OptA, OptB]), 2, DefaultSuggestFields, None, Some(FastCodes));
    RemoteFallbackFacts();
    result, request := service.HandleTapPressed([], "0103", 2);
  }
}

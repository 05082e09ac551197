/** Accent folding used for accent-insensitive matching: every hyphen becomes
    a space, then every lower-case Vietnamese accented vowel (and `đ`) becomes
    its base letter. */
module Normalizer {

  /** One row of the folding table: a base letter and its accented variants. */
  datatype FoldClass = FoldClass(base: char, variants: seq<char>)

  /** The folding table, in the order the service searches it. */
  const VietnameseMap: seq<FoldClass> := [
    FoldClass('a', AVariants), FoldClass('e', EVariants), FoldClass('i', IVariants), FoldClass('o', OVariants),
    FoldClass('u', UVariants), FoldClass('y', YVariants), FoldClass('d', DVariants)
  ]

  const AVariants: seq<char> := ['à', 'á', 'ạ', 'ả', 'ã', 'â', 'ầ', 'ấ', 'ậ', 'ẩ', 'ẫ', 'ă', 'ằ', 'ắ', 'ặ', 'ẳ', 'ẵ']
  const EVariants: seq<char> := ['è', 'é', 'ẹ', 'ẻ', 'ẽ', 'ê', 'ề', 'ế', 'ệ', 'ể', 'ễ']
  const IVariants: seq<char> := ['ì', 'í', 'ị', 'ỉ', 'ĩ']
  const OVariants: seq<char> := ['ò', 'ó', 'ọ', 'ỏ', 'õ', 'ô', 'ồ', 'ố', 'ộ', 'ổ', 'ỗ', 'ơ', 'ờ', 'ớ', 'ợ', 'ở', 'ỡ']
  const UVariants: seq<char> := ['ù', 'ú', 'ụ', 'ủ', 'ũ', 'ư', 'ừ', 'ứ', 'ự', 'ử', 'ữ']
  const YVariants: seq<char> := ['ỳ', 'ý', 'ỵ', 'ỷ', 'ỹ']
  const DVariants: seq<char> := ['đ']

  /** `c` is an accented variant listed in some row of the table. */
  predicate IsVariant(c: char)
  {
    exists k :: 0 <= k < |VietnameseMap| && c in VietnameseMap[k].variants
  }

  /** No character belongs to two rows of the table. */
  ghost predicate RowsDisjoint(table: seq<FoldClass>)
  {
    forall j, k, c :: 0 <= j < |table| && 0 <= k < |table| && c in table[j].variants && c in table[k].variants ==> j == k
  }

  /** Unicode groups the Vietnamese letters by base vowel (in Latin-1,
      Latin Extended-A and Latin Extended Additional), so each row of the
      table lies in code-point ranges of its own: `Zone` names the row whose
      ranges hold `c`, or 7 for none. */
  ghost function Zone(c: char): nat
  {
    if '\U{E0}' <= c <= '\U{E3}' || c == '\U{103}' || '\U{1EA1}' <= c <= '\U{1EB7}' then 0
    else if '\U{E8}' <= c <= '\U{EA}' || '\U{1EB9}' <= c <= '\U{1EC7}' then 1
    else if '\U{EC}' <= c <= '\U{ED}' || c == '\U{129}' || '\U{1EC9}' <= c <= '\U{1ECB}' then 2
    else if '\U{F2}' <= c <= '\U{F5}' || c == '\U{1A1}' || '\U{1ECD}' <= c <= '\U{1EE3}' then 3
    else if '\U{F9}' <= c <= '\U{FA}' || c == '\U{169}' || c == '\U{1B0}' || '\U{1EE5}' <= c <= '\U{1EF1}' then 4
    else if c == '\U{FD}' || '\U{1EF3}' <= c <= '\U{1EF9}' then 5
    else if c == '\U{111}' then 6
    else 7
  }

  lemma ARowInZone() ensures forall c :: c in AVariants ==> Zone(c) == 0 {}
  lemma ERowInZone() ensures forall c :: c in EVariants ==> Zone(c) == 1 {}
  lemma IRowInZone() ensures forall c :: c in IVariants ==> Zone(c) == 2 {}
  lemma ORowInZone() ensures forall c :: c in OVariants ==> Zone(c) == 3 {}
  lemma URowInZone() ensures forall c :: c in UVariants ==> Zone(c) == 4 {}
  lemma YRowInZone() ensures forall c :: c in YVariants ==> Zone(c) == 5 {}
  lemma DRowInZone() ensures forall c :: c in DVariants ==> Zone(c) == 6 {}

  /** Every variant of row `k` lies in zone `k`. */
  lemma RowInZone(k: nat)
    requires k < |VietnameseMap|
    ensures forall c :: c in VietnameseMap[k].variants ==> Zone(c) == k
  {
    if k == 0 { ARowInZone(); }
    else if k == 1 { ERowInZone(); }
    else if k == 2 { IRowInZone(); }
    else if k == 3 { ORowInZone(); }
    else if k == 4 { URowInZone(); }
    else if k == 5 { YRowInZone(); }
    else { DRowInZone(); }
  }

  /** The rows of the table are disjoint, so the order in which the service
      searches them does not matter. */
  lemma VietnameseMapDisjoint()
    ensures RowsDisjoint(VietnameseMap)
  {
    forall k | 0 <= k < |VietnameseMap| {
      RowInZone(k);
    }
  }

  /** No base letter, no space and no hyphen is itself a variant. */
  lemma BasesAreNotVariants()
    ensures !IsVariant(' ') && !IsVariant('-')
    ensures forall k :: 0 <= k < |VietnameseMap| ==> !IsVariant(VietnameseMap[k].base)
  {
    forall k | 0 <= k < |VietnameseMap| {
      RowInZone(k);
    }
  }

  /** The first row of `table` listing `c` gives its base letter; a character
      listed nowhere is kept. */
  function FoldWith(table: seq<FoldClass>, c: char): (r: char)
    ensures (forall k :: 0 <= k < |table| ==> c !in table[k].variants) ==> r == c
    ensures (exists k :: 0 <= k < |table| && c in table[k].variants) ==>
              exists k :: 0 <= k < |table| && c in table[k].variants && r == table[k].base
  {
    if table == [] then c
    else if c in table[0].variants then table[0].base
    else
      var r := FoldWith(table[1..], c);
      assert forall k :: 1 <= k < |table| ==> table[k] == table[1..][k - 1];
      r
  }

  /** One character folded through the table: since the rows are disjoint,
      the row that lists `c` decides, whatever its position. */
  function FoldChar(c: char): (r: char)
    ensures forall k :: 0 <= k < |VietnameseMap| && c in VietnameseMap[k].variants ==> r == VietnameseMap[k].base
    ensures !IsVariant(c) ==> r == c
  {
    VietnameseMapDisjoint();
    FoldWith(VietnameseMap, c)
  }

  /** `s.replace(/-/g, ' ')`. */
  function ReplaceSpecialChars(s: string): (r: string)
    ensures |r| == |s|
    ensures forall i :: 0 <= i < |s| ==> r[i] == if s[i] == '-' then ' ' else s[i]
  {
    if s == [] then [] else [if s[0] == '-' then ' ' else s[0]] + ReplaceSpecialChars(s[1..])
  }

  /** `s.split('').map(FoldChar).join('')`. */
  function FoldChars(s: string): (r: string)
    ensures |r| == |s|
    ensures forall i :: 0 <= i < |s| ==> r[i] == FoldChar(s[i])
  {
    if s == [] then [] else [FoldChar(s[0])] + FoldChars(s[1..])
  }

  /** The normal form used for matching: length preserved, each character
      folded on its own. */
  function Normalize(s: string): (r: string)
    ensures |r| == |s|
    ensures forall i :: 0 <= i < |s| && s[i] == '-' ==> r[i] == ' '
    ensures forall i, k :: 0 <= i < |s| && 0 <= k < |VietnameseMap| && s[i] in VietnameseMap[k].variants
              ==> r[i] == VietnameseMap[k].base
    ensures forall i :: 0 <= i < |s| && s[i] != '-' && !IsVariant(s[i]) ==> r[i] == s[i]
  {
    BasesAreNotVariants();
    FoldChars(ReplaceSpecialChars(s))
  }

  /** A string the normalizer leaves alone: no hyphen and no variant. */
  predicate IsNormal(s: string)
  {
    forall i :: 0 <= i < |s| ==> s[i] != '-' && !IsVariant(s[i])
  }

  /** The normalizer's output is in normal form ... */
  lemma NormalizeIsNormal(s: string)
    ensures IsNormal(Normalize(s))
  {
    var r := Normalize(s);
    BasesAreNotVariants();
    forall i | 0 <= i < |r|
      ensures r[i] != '-' && !IsVariant(r[i])
    {
      if IsVariant(s[i]) {
        var k :| 0 <= k < |VietnameseMap| && s[i] in VietnameseMap[k].variants;
        assert r[i] == VietnameseMap[k].base;
      }
    }
  }

  /** ... and a string in normal form is its own normal form ... */
  lemma NormalFixed(s: string)
    requires IsNormal(s)
    ensures Normalize(s) == s
  {
  }

  /** ... so normalizing twice is normalizing once. */
  lemma NormalizeIdempotent(s: string)
    ensures Normalize(Normalize(s)) == Normalize(s)
  {
    NormalizeIsNormal(s);
    NormalFixed(Normalize(s));
  }
}

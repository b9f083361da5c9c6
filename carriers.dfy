/**
 * The carrier registry: the two static tables `brandNames` and `brandColors`
 * of koleo-widget.js, keyed by the same brand ids.
 *
 * The script's object literals use property names '6', '51', ...; the
 * journey API reports `brand_id` as a number, and the property lookup
 * `brandNames[brand_id]` converts it to its decimal text. The tables are
 * therefore keyed here by the number whose decimal text is the property name.
 */
module Carriers {
  import opened Wrappers

  type BrandId = nat

  const BrandNames: map<BrandId, string> := map[
    6 := "ARRIVARP", 51 := "CD", 2 := "EIC", 29 := "EIP", 28 := "IC",
    57 := "KOLEO BUS", 47 := "LEO", 52 := "LEO_PLUS", 40 := "MultiPlaza",
    59 := "Kulturzug", 20 := "PRS", 58 := "KDR", 38 := "SKPL", 54 := "RKW",
    45 := "KDP", 53 := "UZ", 56 := "SLONECZNY", 33 := "KML", 4 := "IR",
    10 := "KD", 14 := "KM", 11 := "KS", 12 := "KW", 13 := "LKA", 46 := "LP",
    43 := "LS", 18 := "MR", 49 := "PKS", 5 := "RE", 3 := "REG", 27 := "SKM",
    9 := "SKMT", 48 := "sR", 1 := "TLK", 8 := "WKD"]

  const BrandColors: map<BrandId, string> := map[
    6 := "#018091", 51 := "#FD6608", 2 := "#6C727A", 29 := "#102C76",
    28 := "#EF7F0B", 57 := "#0075E2", 47 := "#FD6608", 52 := "#FD6608",
    40 := "#018091", 59 := "#2A2A28", 20 := "#E50000", 58 := "#2A2A28",
    38 := "#0C5DC5", 54 := "#ADB3B3", 45 := "#2A2A28", 53 := "#adb3b3",
    56 := "#00A34F", 33 := "#FBBF00", 4 := "#E50000", 10 := "#2A2A28",
    14 := "#00A34F", 11 := "#009EDC", 12 := "#9D0A0E", 13 := "#ADB3B3",
    46 := "#ADB3B3", 43 := "#ADB3B3", 18 := "#E50000", 49 := "#adb3b3",
    5 := "#ADB3B3", 3 := "#E50000", 27 := "#FF1100", 9 := "#003955",
    48 := "#E50000", 1 := "#F86505", 8 := "#0545CB"]

  /** The registered brand ids, in increasing order. */
  const KnownBrands: seq<BrandId> := [
    1, 2, 3, 4, 5, 6, 8, 9, 10, 11, 12, 13, 14, 18, 20, 27, 28, 29, 33, 38,
    40, 43, 45, 46, 47, 48, 49, 51, 52, 53, 54, 56, 57, 58, 59]

  predicate IsHexDigit(c: char) {
    '0' <= c <= '9' || 'a' <= c <= 'f' || 'A' <= c <= 'F'
  }

  /** A CSS-style "#rrggbb" color, as `new Color(hex)` accepts it. */
  predicate IsHexColor(s: string) {
    |s| == 7 && s[0] == '#' && forall i :: 1 <= i < 7 ==> IsHexDigit(s[i])
  }

  /** `brandNames[id]`: `None` stands for JavaScript's `undefined`. */
  function Label(id: BrandId): (r: Option<string>)
    ensures r.Some? <==> id in BrandNames.Keys
  {
    if id in BrandNames then Some(BrandNames[id]) else None
  }

  /** `brandColors[id]`: `None` stands for JavaScript's `undefined`. */
  function Color(id: BrandId): (r: Option<string>)
    ensures r.Some? <==> id in BrandColors.Keys
  {
    if id in BrandColors then Some(BrandColors[id]) else None
  }

  /** Every color in the table is a well-formed "#rrggbb" color. */
  lemma ColorsAreHex(id: BrandId)
    ensures Color(id).Some? ==> IsHexColor(Color(id).value)
  {
  }

  /** A brand has a label exactly when it has a color, and exactly when it is registered. */
  lemma LookupDefinedIffKnown(id: BrandId)
    ensures Label(id).Some? <==> id in KnownBrands
    ensures Color(id).Some? <==> id in KnownBrands
  {
    TablesShareKeys();
  }

  predicate Increasing(s: seq<BrandId>) {
    forall i :: 0 < i < |s| ==> s[i - 1] < s[i]
  }

  function Elements(s: seq<BrandId>): set<BrandId> {
    set x | x in s
  }

  lemma {:induction false} IncreasingBelowLast(s: seq<BrandId>, j: nat)
    requires Increasing(s) && j < |s| - 1
    ensures s[j] < s[|s| - 1]
    decreases |s| - j
  {
    if j < |s| - 2 {
      IncreasingBelowLast(s, j + 1);
    }
  }

  /** A strictly increasing sequence has as many distinct elements as entries. */
  lemma {:induction false} IncreasingCardinality(s: seq<BrandId>)
    requires Increasing(s)
    ensures |Elements(s)| == |s|
  {
    if s != [] {
      var init, last := s[..|s| - 1], s[|s| - 1];
      assert Increasing(init);
      IncreasingCardinality(init);
      forall x | x in init
        ensures x < last
      {
        var j :| 0 <= j < |init| && init[j] == x;
        IncreasingBelowLast(s, j);
      }
      assert Elements(s) == Elements(init) + {last};
    }
  }

  lemma NameKeys()
    ensures BrandNames.Keys == Elements(KnownBrands)
  {
  }

  lemma ColorKeys()
    ensures BrandColors.Keys == Elements(KnownBrands)
  {
  }

  /** Both tables have exactly the same keys: the registered brands. */
  lemma TablesShareKeys()
    ensures BrandNames.Keys == BrandColors.Keys == Elements(KnownBrands)
  {
    NameKeys();
    ColorKeys();
  }

  lemma KnownBrandsAreIncreasing()
    ensures Increasing(KnownBrands)
  {
  }

  /** There are 35 registered brands. */
  lemma ThirtyFiveKnownBrands()
    ensures |Elements(KnownBrands)| == 35
  {
    KnownBrandsAreIncreasing();
    IncreasingCardinality(KnownBrands);
  }

  /** Each table has 35 entries. */
  lemma ThirtyFiveEntries()
    ensures |BrandNames| == 35 && |BrandColors| == 35
  {
    ThirtyFiveKnownBrands();
    TablesShareKeys();
    assert |BrandNames| == |BrandNames.Keys|;
    assert |BrandColors| == |BrandColors.Keys|;
  }
}

/** The Illinois Productivity Index of soil_scripts/pi_calc.py: a soil symbol
    is split into soil code, slope-band letter and sub-slope digit, and the
    rated base value is scaled by the factor for that band and column. */
module PiCalc {
  import opened Wrappers
  import opened Text
  import opened Rounding
  import opened Survey

  // ------------------------------------------------------ the letters table

  /** The slope-band letters in the table's order, from 0-2 % to over 43 %. */
  const BandLetters: string := "ABCDEFGH"

  /** The `letters` table in hundredths. Columns 0-2 are favourable soils with
      no sub-slope, sub-slope "2" and sub-slope "3"; columns 3-5 the same for
      unfavourable soils. */
  const BandFactors: seq<seq<int>> := [
    [100, 96, 89, 100, 94, 79],  // A  0-2 %
    [99, 95, 88, 99, 93, 78],    // B  2-4 %
    [97, 93, 86, 96, 90, 74],    // C  4-7 %
    [93, 89, 81, 91, 83, 69],    // D  7-12 %
    [87, 82, 75, 85, 78, 63],    // E  12-18 %
    [71, 66, 59, 68, 62, 47],    // F  18-35 %
    [52, 48, 40, 49, 43, 28],    // G  35-43 %
    [48, 44, 36, 45, 39, 24]     // H  over 43 %
  ]

  /** Every band has a row of six factors. */
  lemma TableShape()
    ensures |BandLetters| == |BandFactors| == 8
    ensures forall b :: 0 <= b < 8 ==> |BandFactors[b]| == 6
  {
  }

  /** Every factor lies in (0, 1]. */
  lemma FactorsInUnitInterval()
    ensures forall b, c :: 0 <= b < 8 && 0 <= c < 6 ==> 0 < BandFactors[b][c] <= 100
  {
  }

  /** Each column strictly decreases from band A to band H. */
  lemma ColumnsDecreaseWithSlope()
    ensures forall b, b', c :: 0 <= b < b' < 8 && 0 <= c < 6 ==> BandFactors[b'][c] < BandFactors[b][c]
  {
  }

  /** Within a row, a steeper sub-slope has a smaller factor. */
  lemma RowsDecreaseWithSubSlope()
    ensures forall b :: 0 <= b < 8 ==>
              BandFactors[b][0] > BandFactors[b][1] > BandFactors[b][2]
              && BandFactors[b][3] > BandFactors[b][4] > BandFactors[b][5]
  {
  }

  /** An unfavourable soil never gets a larger factor than a favourable one. */
  lemma UnfavourableNotAboveFavourable()
    ensures forall b, c :: 0 <= b < 8 && 0 <= c < 3 ==> BandFactors[b][c + 3] <= BandFactors[b][c]
  {
  }

  function BandIndex(letter: char): (b: nat)
    requires letter in BandLetters
    ensures b < 8 && BandLetters[b] == letter
  {
    FirstIndex(BandLetters, letter)
  }

  /** `letters[letter][column]`, in hundredths. */
  function Factor(letter: char, column: nat): (f: int)
    requires letter in BandLetters && column < 6
    ensures 0 < f <= 100
  {
    FactorsInUnitInterval();
    BandFactors[BandIndex(letter)][column]
  }

  // ----------------------------------------------------- the ratings table

  /** A row of the soil ratings table: symbol, base value, unfavourable flag. */
  datatype Rating = Rating(musym: string, value: real, unfavorable: int)

  /** `code in dv.musym.values`. */
  predicate Rated(dv: seq<Rating>, code: string) {
    exists i :: 0 <= i < |dv| && dv[i].musym == code
  }

  /** The first row with the symbol: `dv[dv.musym == code]...values[0]`. */
  function FirstRated(dv: seq<Rating>, code: string): (i: nat)
    requires Rated(dv, code)
    ensures i < |dv| && dv[i].musym == code
    ensures forall j :: 0 <= j < i ==> dv[j].musym != code
  {
    if dv[0].musym == code then 0
    else
      assert Rated(dv[1..], code) by {
        var i :| 0 <= i < |dv| && dv[i].musym == code;
        assert dv[1..][i - 1] == dv[i];
      }
      FirstRated(dv[1..], code) + 1
  }

  // --------------------------------------------------------- symbol parsing

  /** The three variables the letter loop overwrites: `soil_code`,
      `slope_code` and `letter` (empty, or one band letter). */
  datatype Parse = Parse(soilCode: string, slopeCode: string, letter: string)

  /** The text after a letter counts as a sub-slope only when it is "2" or "3". */
  function SubSlope(after: string): (s: string)
    ensures s in {"", "2", "3"}
    ensures s != "" <==> after == "2" || after == "3"
    ensures s != "" ==> s == after
  {
    if after in ["3", "2"] then after else ""
  }

  /** The loop body for one letter `li`: when `li in code`, the soil code is
      `code.split(li)[0]` and the sub-slope comes from `code.split(li)[-1]`.
      (On a one-character needle Python's substring test is membership,
      `Text.ContainsChar`.) */
  function ParseStep(p: Parse, code: string, li: char): Parse {
    if li in code then
      var parts := Split(code, li);
      Parse(parts[0], SubSlope(parts[|parts| - 1]), [li])
    else p
  }

  /** The parse after the loop has run over the first `k` band letters. */
  function ScanLetters(code: string, k: nat): (p: Parse)
    requires k <= |BandLetters|
    ensures p.letter == "" || (|p.letter| == 1 && p.letter[0] in BandLetters)
    ensures p.letter == "" ==> p.soilCode == "" && p.slopeCode == ""
  {
    if k == 0 then Parse("", "", "")
    else ParseStep(ScanLetters(code, k - 1), code, BandLetters[k - 1])
  }

  /** What a matched letter leaves behind, told by positions: the soil code
      is the text before the letter's first occurrence, the sub-slope the
      text after its last occurrence when that is "2" or "3". */
  function MatchedParse(code: string, li: char): Parse
    requires li in code
  {
    Parse(code[..FirstIndex(code, li)], SubSlope(code[LastIndex(code, li) + 1..]), [li])
  }

  lemma ParseStepMatched(p: Parse, code: string, li: char)
    requires li in code
    ensures ParseStep(p, code, li) == MatchedParse(code, li)
  {
    SplitFirst(code, li);
    SplitLast(code, li);
  }

  /** The loop has no `break`: the LAST band letter (in A..H order) that
      occurs anywhere in the code decides the parse. */
  lemma {:induction false} ScanLettersLastWins(code: string, k: nat, j: nat)
    requires j < k <= |BandLetters| && BandLetters[j] in code
    requires forall j' :: j < j' < k ==> BandLetters[j'] !in code
    ensures ScanLetters(code, k) == MatchedParse(code, BandLetters[j])
  {
    if j == k - 1 {
      ParseStepMatched(ScanLetters(code, k - 1), code, BandLetters[j]);
    } else {
      ScanLettersLastWins(code, k - 1, j);
    }
  }

  /** A code with no band letter leaves every variable empty. */
  lemma {:induction false} ScanLettersNone(code: string, k: nat)
    requires k <= |BandLetters|
    requires forall j :: 0 <= j < k ==> BandLetters[j] !in code
    ensures ScanLetters(code, k) == Parse("", "", "")
  {
    if k > 0 {
      ScanLettersNone(code, k - 1);
    }
  }

  /** The fallback after the loop: an empty soil code (no letter found, or
      the code starts with the winning letter) means band 'A' and no sub-slope. */
  function Resolved(p: Parse): (q: Parse)
    requires p.letter == "" || (|p.letter| == 1 && p.letter[0] in BandLetters)
    requires p.letter == "" ==> p.soilCode == ""
    ensures |q.letter| == 1 && q.letter[0] in BandLetters
    ensures q.soilCode == p.soilCode
    ensures p.soilCode == "" ==> q.letter == "A" && q.slopeCode == ""
    ensures p.soilCode != "" ==> q == p
  {
    if p.soilCode == "" then Parse(p.soilCode, "", "A") else p
  }

  function ParseSymbol(code: string): Parse {
    Resolved(ScanLetters(code, |BandLetters|))
  }

  /** The column of the band row: 0, 1 or 2 for no sub-slope, "2" or "3",
      moved to 3, 4 or 5 for an unfavourable soil (any non-zero flag). */
  function Column(slopeCode: string, unfavorable: int): (c: nat)
    ensures c < 6
    ensures c < 3 <==> unfavorable == 0
    ensures c % 3 == (if slopeCode == "2" then 1 else if slopeCode == "3" then 2 else 0)
  {
    var fav := if unfavorable == 0 then 0 else 3;
    var ind := if slopeCode == "2" then 1 else if slopeCode == "3" then 2 else 0;
    ind + fav
  }

  /** `val * letters[letter][column]` with the factor in hundredths. */
  function Scaled(value: real, factor: int): real {
    value * factor as real / 100.0
  }

  /** The final `round(val * letters[letter][int(ind + fav)])`. */
  function PiOfRow(row: Rating, p: Parse): int
    requires |p.letter| == 1 && p.letter[0] in BandLetters
  {
    RoundHalfEven(Scaled(row.value, Factor(p.letter[0], Column(p.slopeCode, row.unfavorable))))
  }

  /** `calculate_pi_val(code)` as a value: None for an unrated symbol,
      otherwise round(value × factor) of the first rating row. */
  function PiValue(dv: seq<Rating>, code: string): (pi: Option<int>)
    ensures pi.None? <==> !Rated(dv, code)
    ensures pi.Some? ==> pi.value == PiOfRow(dv[FirstRated(dv, code)], ParseSymbol(code))
  {
    if !Rated(dv, code) then None
    else Some(PiOfRow(dv[FirstRated(dv, code)], ParseSymbol(code)))
  }

  /** `calculate_pi_val`: the letter loop overwrites the three variables on
      every match, then the fallback, the lookup and the rounding. */
  method CalculatePiVal(dv: seq<Rating>, code: string) returns (pi: Option<int>)
    ensures pi == PiValue(dv, code)
    ensures pi.None? <==> !Rated(dv, code)
  {
    if !Rated(dv, code) {
      return None;
    }
    var slopeCode, soilCode, letter := "", "", "";
    for k := 0 to |BandLetters|
      invariant Parse(soilCode, slopeCode, letter) == ScanLetters(code, k)
    {
      var li := BandLetters[k];
      if li in code {
        var parts := Split(code, li);
        soilCode := parts[0];
        slopeCode := parts[|parts| - 1];
        slopeCode := if slopeCode in ["3", "2"] then slopeCode else "";
        letter := [li];
      }
    }
    if soilCode == "" {
      slopeCode := "";
      letter := "A";
    }
    assert Parse(soilCode, slopeCode, letter) == ParseSymbol(code);
    pi := Some(PiOfRow(dv[FirstRated(dv, code)], Parse(soilCode, slopeCode, letter)));
  }

  // --------------------------------------------------------------- lemmas

  /** A favourable symbol with no band letter is rated at its base value,
      rounded: band A, column 0, factor 1. */
  lemma PiWithoutLetterIsValue(dv: seq<Rating>, code: string)
    requires Rated(dv, code)
    requires forall j :: 0 <= j < |BandLetters| ==> BandLetters[j] !in code
    requires dv[FirstRated(dv, code)].unfavorable == 0
    ensures PiValue(dv, code) == Some(RoundHalfEven(dv[FirstRated(dv, code)].value))
  {
    ScanLettersNone(code, |BandLetters|);
    assert ParseSymbol(code) == Parse("", "", "A");
    assert Factor('A', 0) == 100 by {
      assert BandIndex('A') == 0;
    }
    assert Column("", 0) == 0;
    var v := dv[FirstRated(dv, code)].value;
    assert Scaled(v, 100) == v;
  }

  /** With an integer base value, such a symbol keeps that value exactly. */
  lemma PiWithoutLetterIntegerValue(dv: seq<Rating>, code: string, n: int)
    requires Rated(dv, code)
    requires forall j :: 0 <= j < |BandLetters| ==> BandLetters[j] !in code
    requires dv[FirstRated(dv, code)].unfavorable == 0 && dv[FirstRated(dv, code)].value == n as real
    ensures PiValue(dv, code) == Some(n)
  {
    PiWithoutLetterIsValue(dv, code);
    RoundHalfEvenOfInt(n);
  }

  /** A symbol that starts with its winning letter is read as band A with no
      sub-slope, whatever follows. */
  lemma LeadingLetterMeansBandA(code: string, j: nat)
    requires j < |BandLetters| && |code| > 0 && code[0] == BandLetters[j]
    requires forall j' :: j < j' < |BandLetters| ==> BandLetters[j'] !in code
    ensures ParseSymbol(code) == Parse("", "", "A")
  {
    ScanLettersLastWins(code, |BandLetters|, j);
    assert FirstIndex(code, BandLetters[j]) == 0;
  }

  /** A symbol whose soil code is non-empty keeps its last band letter. */
  lemma ParsedBandIsLastLetter(code: string, j: nat)
    requires j < |BandLetters| && BandLetters[j] in code
    requires forall j' :: j < j' < |BandLetters| ==> BandLetters[j'] !in code
    requires code[0] != BandLetters[j]
    ensures ParseSymbol(code) == MatchedParse(code, BandLetters[j])
  {
    ScanLettersLastWins(code, |BandLetters|, j);
    assert FirstIndex(code, BandLetters[j]) > 0;
    assert code[..FirstIndex(code, BandLetters[j])] != "" by {
      assert |code[..FirstIndex(code, BandLetters[j])]| > 0;
    }
  }

  /** For a non-negative base value the index lies between 0 and the rounded
      base value: the factors never exceed 1. */
  lemma PiBetweenZeroAndValue(row: Rating, p: Parse)
    requires |p.letter| == 1 && p.letter[0] in BandLetters
    requires row.value >= 0.0
    ensures 0 <= PiOfRow(row, p) <= RoundHalfEven(row.value)
  {
    var f := Factor(p.letter[0], Column(p.slopeCode, row.unfavorable));
    ScaledBetween(row.value, f);
    RoundHalfEvenMonotone(0.0, Scaled(row.value, f));
    RoundHalfEvenMonotone(Scaled(row.value, f), row.value);
    RoundHalfEvenOfInt(0);
  }

  lemma ScaledBetween(value: real, f: int)
    requires value >= 0.0 && 0 < f <= 100
    ensures 0.0 <= Scaled(value, f) <= value
  {
    var k := f as real / 100.0;
    assert 0.0 < k <= 1.0;
    assert Scaled(value, f) == value * k;
    assert value * k <= value * 1.0;
  }

  /** "171B2" is soil 171 in band B with sub-slope 2. */
  lemma ParseExample171B2()
    ensures ParseSymbol("171B2") == Parse("171", "2", "B")
  {
    var code := "171B2";
    assert BandLetters[1] == 'B';
    forall j' | 1 < j' < |BandLetters| ensures BandLetters[j'] !in code {
      assert BandLetters[j'] in "CDEFGH";
    }
    ScanLettersLastWins(code, |BandLetters|, 1);
    assert code[3] == 'B' && 'B' !in code[..3];
    assert FirstIndex(code, 'B') == 3;
    assert code[4..] == "2";
    LastIndexUnique(code, 'B', 3);
    assert code[..3] == "171";
  }

  /** A favourable "171B2" rated 100 has index 95. */
  lemma PiExample171B2()
    ensures PiValue([Rating("171B2", 100.0, 0)], "171B2") == Some(95)
  {
    var dv := [Rating("171B2", 100.0, 0)];
    ParseExample171B2();
    assert dv[0].musym == "171B2";
    assert Rated(dv, "171B2");
    assert FirstRated(dv, "171B2") == 0;
    assert Column("2", 0) == 1;
    assert Factor('B', 1) == 95 by {
      assert BandIndex('B') == 1;
    }
    assert Scaled(100.0, 95) == 95.0;
    RoundHalfEvenOfInt(95);
  }

  // ------------------------------------------------------------ process_pi

  datatype PiRow = PiRow(mukey: string, pi: Option<int>)

  /** `process_pi`: one row per map unit, in order, the key passed through
      and the index of its symbol (None when the symbol is unrated). */
  function ProcessPi(dv: seq<Rating>, mapunit: seq<MapUnit>): (rows: seq<PiRow>)
    ensures |rows| == |mapunit|
    ensures forall i :: 0 <= i < |mapunit| ==> rows[i].mukey == mapunit[i].mukey
    ensures forall i :: 0 <= i < |mapunit| ==> (rows[i].pi.None? <==> !Rated(dv, mapunit[i].musym))
    ensures forall i :: 0 <= i < |mapunit| ==> rows[i].pi == PiValue(dv, mapunit[i].musym)
  {
    seq(|mapunit|, i requires 0 <= i < |mapunit| => PiRow(mapunit[i].mukey, PiValue(dv, mapunit[i].musym)))
  }
}

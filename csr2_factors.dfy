/** The per-row penalty helpers of the Iowa Corn Suitability Rating 2
    (soil_scripts/csr2.py, `calc_mfactor` to `calc_ej`). Each turns one or
    two attributes of a merged component row into a number. */
module Csr2Factors {
  import opened Wrappers
  import opened Text
  import opened Survey

  // ---------------------------------------------------------------- m factor

  /** The particle-size text `calc_mfactor` looks up: a missing cell is read as "". */
  function PartSizeText(taxpartsize: Option<string>): (v: string)
    ensures taxpartsize.Some? ==> v == taxpartsize.value
    ensures taxpartsize.None? ==> v == ""
  {
    if taxpartsize.None? then "" else taxpartsize.value
  }

  /** `calc_mfactor`: particle-size penalty. A listed class gives its table
      value, plus 5 for a calcareous class. An unlisted skeletal class gives
      exactly 12 (the source returns before the calcareous bonus). The
      source's `elif val is None` branch cannot be reached, since a missing
      cell has already become "", so it has no counterpart here. */
  function MFactor(mfac: map<string, int>, taxpartsize: Option<string>): (m: int)
    ensures var v := PartSizeText(taxpartsize);
            v in mfac ==> m - mfac[v] == (if Contains(v, "calcareous") then 5 else 0)
    ensures var v := PartSizeText(taxpartsize);
            v !in mfac ==> m in {0, 5, 12} && (Contains(v, "skeletal") <==> m == 12)
    ensures var v := PartSizeText(taxpartsize);
            v !in mfac && !Contains(v, "skeletal") ==> (m == 5 <==> Contains(v, "calcareous"))
  {
    var v := PartSizeText(taxpartsize);
    var listed := if v in mfac then mfac[v] else 0;
    if v !in mfac && Contains(v, "skeletal") then 12
    else if Contains(v, "calcareous") then listed + 5
    else listed
  }

  /** A missing particle-size class scores as the empty text. */
  lemma MFactorMissing(mfac: map<string, int>)
    ensures MFactor(mfac, None) == MFactor(mfac, Some(""))
  {
  }

  // ---------------------------------------------------------------- w factor

  /** `calc_wfactor`: water-holding-capacity penalty, stepping down at the
      strict thresholds 3.01, 6.00 and 9.0; a value `float()` rejects gives 99. */
  function WFactor(cwhc: Num): (w: int)
    ensures w in {0, 8, 12, 24, 99}
    ensures w == 99 <==> cwhc.NonNumeric?
    ensures cwhc.Real? ==> (w == 24 <==> cwhc.x < 3.01)
    ensures cwhc.Real? ==> (w == 12 <==> 3.01 <= cwhc.x < 6.00)
    ensures cwhc.Real? ==> (w == 8 <==> 6.00 <= cwhc.x < 9.0)
    ensures cwhc.Real? ==> (w == 0 <==> cwhc.x >= 9.0)
  {
    match cwhc
    case NonNumeric => 99
    case Real(x) =>
      if x < 3.01 then 24
      else if x < 6.00 then 12
      else if x < 9.0 then 8
      else 0
  }

  /** The lowest band is strict at its upper end: 3.00 is penalised 24, 3.01 only 12. */
  lemma WFactorBoundary()
    ensures WFactor(Real(3.00)) == 24 && WFactor(Real(3.01)) == 12
    ensures WFactor(Real(6.0)) == 8 && WFactor(Real(9.0)) == 0
  {
  }

  /** More water-holding capacity is never penalised more. */
  lemma WFactorAntitone(x: real, y: real)
    requires x <= y
    ensures WFactor(Real(y)) <= WFactor(Real(x))
  {
  }

  // ---------------------------------------------------------------- d factor

  /** Python's `int(x)` of a number: truncation toward zero. */
  function Trunc(x: real): (n: int)
    ensures x >= 0.0 ==> n as real <= x < n as real + 1.0
    ensures x < 0.0 ==> n as real - 1.0 < x <= n as real
  {
    if x >= 0.0 then x.Floor else -((-x).Floor)
  }

  /** `calc_dfactor`: erosion-tolerance penalty. Histosols and a `tfact` that
      `int()` rejects give 0; otherwise the truncated T factor 1..5 gives
      40, 30, 20, 10, 0. For any other integer the source falls off the end
      of the function and returns Python's None, which is `None` here. */
  function DFactor(compname: string, tfact: Num): (d: Option<int>)
    ensures Contains(compname, "Histosols") ==> d == Some(0)
    ensures tfact.NonNumeric? ==> d == Some(0)
    ensures !Contains(compname, "Histosols") && tfact.Real? ==>
              var t := Trunc(tfact.x);
              (d.Some? <==> 1 <= t <= 5) && (d.Some? ==> d.value == 10 * (5 - t))
  {
    if Contains(compname, "Histosols") then Some(0)
    else
      match tfact
      case NonNumeric => Some(0)
      case Real(x) =>
        var t := Trunc(x);
        if t == 5 then Some(0)
        else if t == 4 then Some(10)
        else if t == 3 then Some(20)
        else if t == 2 then Some(30)
        else if t == 1 then Some(40)
        else None
  }

  /** A larger tolerance factor is never penalised more. */
  lemma DFactorAntitone(compname: string, x: real, y: real)
    requires x <= y
    requires DFactor(compname, Real(x)).Some? && DFactor(compname, Real(y)).Some?
    ensures DFactor(compname, Real(y)).value <= DFactor(compname, Real(x)).value
  {
  }

  // ---------------------------------------------------------- flood and pond

  predicate FrequentOrOccasional(freq: Option<string>) {
    freq == Some("Frequent") || freq == Some("Occasional")
  }

  /** Python's `v in [..]` for a possibly missing cell: a missing cell is in no list. */
  predicate InList(v: Option<string>, classes: seq<string>) {
    v.Some? && v.value in classes
  }

  const PondBrief: seq<string> := ["Brief (2 to 7 days)", "Very Brief"]
  const PondLong: seq<string> := ["Long (7 to 30 days)", "Very long (more than 30 days)"]

  /** `calc_fpond`: ponding penalty from the May record. */
  function PondFactor(pondfreqcl: Option<string>, ponddurcl: Option<string>): (p: int)
    ensures p in {0, 20, 44}
    ensures p == 20 <==> InList(ponddurcl, PondBrief) && FrequentOrOccasional(pondfreqcl)
    ensures p == 44 <==> InList(ponddurcl, PondLong) && FrequentOrOccasional(pondfreqcl)
  {
    if InList(ponddurcl, PondBrief) && FrequentOrOccasional(pondfreqcl) then 20
    else if InList(ponddurcl, PondLong) && FrequentOrOccasional(pondfreqcl) then 44
    else 0
  }

  /** `calc_fflood`: flooding penalty from the May record. */
  function FloodFactor(flodfreqcl: Option<string>, floddurcl: Option<string>): (f: int)
    ensures f in {0, 2, 4, 5, 6, 10, 20, 34}
    ensures !FrequentOrOccasional(flodfreqcl) ==> f == 0
    ensures flodfreqcl == Some("Frequent") ==> f in {0, 5, 10, 20}
    ensures flodfreqcl == Some("Occasional") ==> f in {0, 2, 4, 6, 10, 34}
  {
    if flodfreqcl == Some("Frequent") && floddurcl == Some("Brief (2 to 7 days)") then 20
    else if flodfreqcl == Some("Frequent") && floddurcl == Some("Very brief (4 to 48 hours)") then 10
    else if flodfreqcl == Some("Frequent") && floddurcl == Some("Extremely brief (0.1 to 4 hours)") then 5
    else if flodfreqcl == Some("Occasional") then
      if floddurcl == Some("Brief (2 to 7 days)") then 6
      else if floddurcl == Some("Very brief (4 to 48 hours)") then 4
      else if floddurcl == Some("Long (7 to 30 days)") then 10
      else if floddurcl == Some("Very long (more than 30 days)") then 34
      else if floddurcl == Some("Extremely brief (0.1 to 4 hours)") then 2
      else 0
    else 0
  }

  /** Frequent flooding of long or very long duration has no entry in the
      flood table: it scores 0, less than occasional flooding of the same
      duration. The source relies on an earlier disqualifying test for this
      case (see `Csr2.FrequentLongIndexTest`). */
  lemma FrequentLongFloodUnpenalised()
    ensures FloodFactor(Some("Frequent"), Some("Long (7 to 30 days)")) == 0
    ensures FloodFactor(Some("Occasional"), Some("Long (7 to 30 days)")) == 10
    ensures FloodFactor(Some("Frequent"), Some("Very long (more than 30 days)")) == 0
    ensures FloodFactor(Some("Occasional"), Some("Very long (more than 30 days)")) == 34
  {
  }

  // ----------------------------------------------------------------- slope

  /** `calc_slope`: 0 below 2 %, 5 below 5 %, 15 below 9 %, else three times
      the slope; a value `float()` rejects gives 0. */
  function SlopeFactor(slope_r: Num): (s: real)
    ensures s >= 0.0
    ensures slope_r.NonNumeric? ==> s == 0.0
    ensures slope_r.Real? && slope_r.x >= 9.0 ==> s == 3.0 * slope_r.x
    ensures slope_r.Real? && slope_r.x < 9.0 ==> s in {0.0, 5.0, 15.0}
    ensures slope_r.Real? ==> (s == 0.0 <==> slope_r.x < 2.0)
    ensures slope_r.Real? ==> (s == 5.0 <==> 2.0 <= slope_r.x < 5.0)
    ensures slope_r.Real? ==> (s == 15.0 <==> 5.0 <= slope_r.x < 9.0)
  {
    match slope_r
    case NonNumeric => 0.0
    case Real(x) =>
      if x < 2.0 then 0.0
      else if x < 5.0 then 5.0
      else if x < 9.0 then 15.0
      else 3.0 * x
  }

  /** A steeper slope is never penalised less. */
  lemma SlopeFactorMonotone(x: real, y: real)
    requires x <= y
    ensures SlopeFactor(Real(x)) <= SlopeFactor(Real(y))
  {
  }

  // ------------------------------------------------------- local conditions

  /** `calc_conditions`: 40 for a channeled local phase plus 3 for erosion
      class 2, both looked for in `str()` of the cell. */
  function ConditionFactor(localphase: Option<string>, erocl: Option<string>): (c: int)
    ensures c in {0, 3, 40, 43}
    ensures c >= 40 <==> Contains(Str(localphase), "channeled")
    ensures c % 2 == 1 <==> Contains(Str(erocl), "Class 2")
  {
    var out := if Contains(Str(localphase), "channeled") then 40 else 0;
    if Contains(Str(erocl), "Class 2") then out + 3 else out
  }

  // ----------------------------------------------------------- EJ correction

  /** `calc_ej`: the manual correction. The subtraction table adds its entry
      for the component name; the addition table takes away its entries for
      the component name and for the map unit. A missing key contributes 0. */
  function EjFactor(ejAdd: map<string, int>, ejSubst: map<string, int>,
                    compname: string, mukey: string): (ej: int)
    ensures ej == GetOr(ejSubst, compname, 0) - GetOr(ejAdd, compname, 0) - GetOr(ejAdd, mukey, 0)
  {
    var out := if compname in ejSubst then ejSubst[compname] else 0;
    var out' := if compname in ejAdd then out - ejAdd[compname] else out;
    if mukey in ejAdd then out' - ejAdd[mukey] else out'
  }
}

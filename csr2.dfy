/** `calc_csr2` and `process_csr2` of soil_scripts/csr2.py: the map-unit
    Corn Suitability Rating 2 as a pipeline over the survey rows, and the
    batch driver that extends the EJ addition table and scores every map unit. */
module Csr2 {
  import opened Wrappers
  import opened Rounding
  import opened Survey
  import opened Csr2Factors

  /** The four lookup tables: taxonomy subgroup factors, particle-size
      factors, and the EJ addition and subtraction tables. */
  datatype Tables = Tables(
    sfac: map<string, int>,
    mfac: map<string, int>,
    ejAdd: map<string, int>,
    ejSubst: map<string, int>)

  // ---------------------------------------------------- component selection

  /** `component[component.mukey == mukey]`. */
  function UnitComponents(component: seq<Component>, mukey: string): (sin: seq<Component>)
    ensures |sin| <= |component|
    ensures forall c :: c in sin <==> c in component && c.mukey == mukey
  {
    if |component| == 0 then []
    else
      (if component[0].mukey == mukey then [component[0]] else [])
      + UnitComponents(component[1..], mukey)
  }

  /** `name in sin.compname.values`: a test on the column's values. */
  predicate HasComponentNamed(sin: seq<Component>, name: string) {
    exists i :: 0 <= i < |sin| && sin[i].compname == name
  }

  /** Some component is in non-irrigated capability subclass "w" and class 5. */
  predicate NonIrrigatedClass5W(sin: seq<Component>) {
    exists i :: 0 <= i < |sin| && sin[i].nirrcapscl == Some("w") && sin[i].nirrcapcl == Real(5.0)
  }

  /** `'Miscellaneous Area' in sin.compkind`. On a pandas Series `in` looks at
      the row labels, so this asks whether some row is LABELLED
      "Miscellaneous Area"; the `compkind` values play no part. */
  predicate MiscellaneousAreaIndexTest(sin: seq<Component>) {
    exists i :: 0 <= i < |sin| && sin[i].rowLabel == Name("Miscellaneous Area")
  }

  // ------------------------------------------------------ taxonomy filter

  /** The `s_fact` column: the subgroup's table value, -999 when it is unlisted. */
  function SFactor(sfac: map<string, int>, taxsubgrp: Option<string>): int {
    if taxsubgrp.Some? && taxsubgrp.value in sfac then sfac[taxsubgrp.value] else -999
  }

  /** `sin[sin.s_fact > -100]`. */
  function TaxonomyFiltered(sfac: map<string, int>, sin: seq<Component>): (kept: seq<Component>)
    ensures |kept| <= |sin|
    ensures forall c :: c in kept <==>
              c in sin && c.taxsubgrp.Some? && c.taxsubgrp.value in sfac && sfac[c.taxsubgrp.value] > -100
  {
    if |sin| == 0 then []
    else
      (if SFactor(sfac, sin[0].taxsubgrp) > -100 then [sin[0]] else [])
      + TaxonomyFiltered(sfac, sin[1..])
  }

  function CokeysOf(kept: seq<Component>): set<string> {
    set c | c in kept :: c.cokey
  }

  // ----------------------------------------------- flood disqualification

  /** `comnth[comnth.cokey.isin(cokeys)]`. */
  function MonthsOf(comnth: seq<ComponentMonth>, cokeys: set<string>): (coms: seq<ComponentMonth>)
    ensures forall m :: m in coms <==> m in comnth && m.cokey in cokeys
  {
    if |comnth| == 0 then []
    else
      (if comnth[0].cokey in cokeys then [comnth[0]] else [])
      + MonthsOf(comnth[1..], cokeys)
  }

  /** `s in coms.<column>`: true when some row is LABELLED `s`, whichever column is named. */
  predicate LabelIn(coms: seq<ComponentMonth>, s: string) {
    exists i :: 0 <= i < |coms| && coms[i].rowLabel == Name(s)
  }

  /** The three disqualifying tests of the source, in its order. Each is a
      test on row labels. The last two also pair their two tests
      independently: "Frequent" and the duration are looked for separately,
      not within one month record. */
  predicate VeryFrequentIndexTest(coms: seq<ComponentMonth>) {
    LabelIn(coms, "Very frequent")
  }

  predicate FrequentVeryLongIndexTest(coms: seq<ComponentMonth>) {
    LabelIn(coms, "Frequent") && LabelIn(coms, "Very long (more than 30 days)")
  }

  predicate FrequentLongIndexTest(coms: seq<ComponentMonth>) {
    LabelIn(coms, "Frequent") && LabelIn(coms, "Long (7 to 30 days)")
  }

  predicate FloodDisqualified(coms: seq<ComponentMonth>) {
    VeryFrequentIndexTest(coms) || FrequentVeryLongIndexTest(coms) || FrequentLongIndexTest(coms)
  }

  // ------------------------------------------------------- water capacity

  predicate HasHorizons(cho: seq<Horizon>, cokey: string) {
    exists i :: 0 <= i < |cho| && cho[i].cokey == cokey
  }

  /** The grouped `cwhc` of one component: the sum of
      `(hzdepb_r - hzdept_r) * awc_r` over its horizons. */
  function WaterCapacity(cho: seq<Horizon>, cokey: string): real {
    if |cho| == 0 then 0.0
    else
      (if cho[0].cokey == cokey then (cho[0].hzdepb_r - cho[0].hzdept_r) * cho[0].awc_r else 0.0)
      + WaterCapacity(cho[1..], cokey)
  }

  /** The grouped sum does not depend on how the horizon rows are split up. */
  lemma {:induction false} WaterCapacityAppend(a: seq<Horizon>, b: seq<Horizon>, cokey: string)
    ensures WaterCapacity(a + b, cokey) == WaterCapacity(a, cokey) + WaterCapacity(b, cokey)
  {
    if |a| > 0 {
      assert (a + b)[1..] == a[1..] + b;
      WaterCapacityAppend(a[1..], b, cokey);
    } else {
      assert a + b == b;
    }
  }

  /** Well-formed horizons (bottom below top, non-negative capacity) give a
      non-negative water-holding capacity. */
  lemma {:induction false} WaterCapacityNonNegative(cho: seq<Horizon>, cokey: string)
    requires forall i :: 0 <= i < |cho| ==> cho[i].hzdept_r <= cho[i].hzdepb_r && cho[i].awc_r >= 0.0
    ensures WaterCapacity(cho, cokey) >= 0.0
  {
    if |cho| > 0 {
      WaterCapacityNonNegative(cho[1..], cokey);
      var h := cho[0];
      assert (h.hzdepb_r - h.hzdept_r) * h.awc_r >= 0.0;
    }
  }

  datatype Watered = Watered(comp: Component, cwhc: real)

  /** The left merge with the grouped horizons followed by
      `dropna(subset=['cwhc'])`: a component without horizon rows is dropped. */
  function WithWater(kept: seq<Component>, cho: seq<Horizon>): (rows: seq<Watered>)
    ensures |rows| <= |kept|
    ensures forall r :: r in rows ==>
              r.comp in kept && HasHorizons(cho, r.comp.cokey) && r.cwhc == WaterCapacity(cho, r.comp.cokey)
    ensures forall c :: c in kept && HasHorizons(cho, c.cokey) ==> Watered(c, WaterCapacity(cho, c.cokey)) in rows
  {
    if |kept| == 0 then []
    else
      var c := kept[0];
      (if HasHorizons(cho, c.cokey) then [Watered(c, WaterCapacity(cho, c.cokey))] else [])
      + WithWater(kept[1..], cho)
  }

  // ------------------------------------------------------------- May merge

  /** The flood and pond columns a component row gets from the May merge.
      Without a matching May record they are missing, which pandas holds as
      NaN and which equals no class name. */
  datatype MayFields = MayFields(
    flodfreqcl: Option<string>,
    floddurcl: Option<string>,
    pondfreqcl: Option<string>,
    ponddurcl: Option<string>)

  const NoMayRecord := MayFields(None, None, None, None)

  /** The flood and pond columns of one month record. */
  function MayFieldsOf(m: ComponentMonth): MayFields {
    MayFields(m.flodfreqcl, m.floddurcl, m.pondfreqcl, m.ponddurcl)
  }

  /** `comnth[(comnth.cokey.isin(cokey)) & (comnth.month == 'May')]`, for one
      component, in `comonth` order. */
  function MayRecords(comnth: seq<ComponentMonth>, cokey: string): (mays: seq<MayFields>)
    ensures |mays| <= |comnth|
  {
    if |comnth| == 0 then []
    else
      var m := comnth[0];
      (if m.cokey == cokey && m.month == "May" then [MayFieldsOf(m)] else [])
      + MayRecords(comnth[1..], cokey)
  }

  /** The May records of a component are exactly the fields of its month
      records for "May". */
  lemma {:induction false} MayRecordsMembership(comnth: seq<ComponentMonth>, cokey: string, f: MayFields)
    ensures f in MayRecords(comnth, cokey) <==>
              exists m :: m in comnth && m.cokey == cokey && m.month == "May" && MayFieldsOf(m) == f
  {
    if |comnth| > 0 {
      MayRecordsMembership(comnth[1..], cokey, f);
      assert forall m :: m in comnth <==> m == comnth[0] || m in comnth[1..] by {
        assert comnth == [comnth[0]] + comnth[1..];
      }
    }
  }

  datatype Merged = Merged(comp: Component, cwhc: real, may: MayFields)

  /** One merged row per May record of the component, or one row with
      missing flood and pond columns when there is no May record. */
  function MergeOne(w: Watered, mays: seq<MayFields>): (rows: seq<Merged>)
    ensures |rows| == if |mays| == 0 then 1 else |mays|
    ensures forall r :: r in rows ==> r.comp == w.comp && r.cwhc == w.cwhc
    ensures |mays| == 0 ==> rows == [Merged(w.comp, w.cwhc, NoMayRecord)]
    ensures forall i :: 0 <= i < |mays| ==> rows[i] == Merged(w.comp, w.cwhc, mays[i])
  {
    if |mays| == 0 then [Merged(w.comp, w.cwhc, NoMayRecord)]
    else seq(|mays|, i requires 0 <= i < |mays| => Merged(w.comp, w.cwhc, mays[i]))
  }

  /** `sin.merge(coms, on='cokey', how='left')` with the May records: taken
      literally, so a component with several May records is repeated and
      its share is counted once per repetition. */
  function MergeMay(watered: seq<Watered>, comnth: seq<ComponentMonth>): (rows: seq<Merged>)
    ensures |rows| >= |watered|
  {
    if |watered| == 0 then []
    else MergeOne(watered[0], MayRecords(comnth, watered[0].comp.cokey)) + MergeMay(watered[1..], comnth)
  }

  /** The May fields of a component's first merged row: its first May
      record, or missing fields when it has none. */
  function MayOf(comnth: seq<ComponentMonth>, cokey: string): MayFields {
    var mays := MayRecords(comnth, cokey);
    if |mays| == 0 then NoMayRecord else mays[0]
  }

  /** The left merge loses no component and invents none: every component
      appears with its first May record (or missing fields), and every row
      is a component with one of its May records, or with missing fields
      when it has none. */
  lemma {:induction false} MergeMayMembership(watered: seq<Watered>, comnth: seq<ComponentMonth>)
    ensures forall w :: w in watered ==>
              Merged(w.comp, w.cwhc, MayOf(comnth, w.comp.cokey)) in MergeMay(watered, comnth)
    ensures forall r :: r in MergeMay(watered, comnth) ==>
              && Watered(r.comp, r.cwhc) in watered
              && (r.may in MayRecords(comnth, r.comp.cokey)
                  || (r.may == NoMayRecord && |MayRecords(comnth, r.comp.cokey)| == 0))
  {
    if |watered| > 0 {
      MergeMayMembership(watered[1..], comnth);
      var w := watered[0];
      var head := MergeOne(w, MayRecords(comnth, w.comp.cokey));
      assert Merged(w.comp, w.cwhc, MayOf(comnth, w.comp.cokey)) == head[0];
      assert forall v :: v in watered <==> v == w || v in watered[1..] by {
        assert watered == [w] + watered[1..];
      }
      forall r | r in head
        ensures r.may in MayRecords(comnth, r.comp.cokey)
                || (r.may == NoMayRecord && |MayRecords(comnth, r.comp.cokey)| == 0)
      {
        var i :| 0 <= i < |head| && head[i] == r;
      }
    }
  }

  /** With at most one May record per component the merge keeps one row per
      component; a second May record adds a row. */
  lemma {:induction false} MergeMayOneRowEach(watered: seq<Watered>, comnth: seq<ComponentMonth>)
    requires forall i :: 0 <= i < |watered| ==> |MayRecords(comnth, watered[i].comp.cokey)| <= 1
    ensures |MergeMay(watered, comnth)| == |watered|
  {
    if |watered| > 0 {
      MergeMayOneRowEach(watered[1..], comnth);
    }
  }

  lemma MergeMayDuplicates(w: Watered, comnth: seq<ComponentMonth>)
    requires |MayRecords(comnth, w.comp.cokey)| >= 2
    ensures |MergeMay([w], comnth)| >= 2
  {
  }

  // -------------------------------------------------------- component score

  function AtLeastFive(x: real): (y: real)
    ensures y >= 5.0 && y >= x
    ensures x >= 5.0 ==> y == x
    ensures x < 5.0 ==> y == 5.0
  {
    if x < 5.0 then 5.0 else x
  }

  /** The `f_fact` column: flood, pond, slope and local-condition penalties. */
  function FFactor(row: Merged): (f: real)
    ensures f >= 0.0
  {
    (FloodFactor(row.may.flodfreqcl, row.may.floddurcl)
     + PondFactor(row.may.pondfreqcl, row.may.ponddurcl)) as real
    + SlopeFactor(row.comp.slope_r)
    + ConditionFactor(row.comp.localphase, row.comp.erocl) as real
  }

  /** The `csr2` column of one merged row: s − m − w − f − d − ej, floored
      at 5. Where `calc_dfactor` gave None the column holds NaN, which the
      weighted sum skips; that is `None` here. */
  function ComponentScore(t: Tables, row: Merged): (score: Option<real>)
    ensures score.None? <==> DFactor(row.comp.compname, row.comp.tfact).None?
    ensures score.Some? ==> score.value >= 5.0
    ensures score.Some? ==>
              var raw := SFactor(t.sfac, row.comp.taxsubgrp) as real
                         - MFactor(t.mfac, row.comp.taxpartsize) as real
                         - WFactor(Real(row.cwhc)) as real - FFactor(row)
                         - DFactor(row.comp.compname, row.comp.tfact).value as real
                         - EjFactor(t.ejAdd, t.ejSubst, row.comp.compname, row.comp.mukey) as real;
              score.value >= raw && (raw >= 5.0 ==> score.value == raw)
              && (raw < 5.0 ==> score.value == 5.0)
  {
    match DFactor(row.comp.compname, row.comp.tfact)
    case None => None
    case Some(d) =>
      var c := row.comp;
      Some(AtLeastFive(SFactor(t.sfac, c.taxsubgrp) as real
                       - MFactor(t.mfac, c.taxpartsize) as real
                       - WFactor(Real(row.cwhc)) as real
                       - FFactor(row)
                       - d as real
                       - EjFactor(t.ejAdd, t.ejSubst, c.compname, c.mukey) as real))
  }

  // ------------------------------------------------------ area weighting

  /** A component's share (`comppct_r`) and its score, when it has one. */
  datatype Weighted = Weighted(comppct_r: real, score: Option<real>)

  /** `csr2_weight`, as it counts in the sum: a missing score adds nothing. */
  function Term(w: Weighted): real {
    if w.score.Some? then w.comppct_r / 100.0 * w.score.value else 0.0
  }

  /** `sin.csr2_weight.sum()`. */
  function WeightedSum(terms: seq<Weighted>): real {
    if |terms| == 0 then 0.0 else Term(terms[0]) + WeightedSum(terms[1..])
  }

  function TotalShare(terms: seq<Weighted>): real {
    if |terms| == 0 then 0.0 else terms[0].comppct_r + TotalShare(terms[1..])
  }

  /** The final `round(5 if s < 5 else s)`: at least 5, and within a half of
      the weighted sum whenever that sum reaches 5. */
  function UnitScore(terms: seq<Weighted>): (r: int)
    ensures r >= 5
    ensures WeightedSum(terms) < 5.0 ==> r == 5
    ensures WeightedSum(terms) >= 5.0 ==> WeightedSum(terms) - 0.5 <= r as real <= WeightedSum(terms) + 0.5
    ensures WeightedSum(terms) >= 5.0
            && (r as real - WeightedSum(terms) == 0.5 || WeightedSum(terms) - r as real == 0.5)
            ==> r % 2 == 0
  {
    RoundHalfEven(AtLeastFive(WeightedSum(terms)))
  }

  lemma {:induction false} WeightedSumAppend(a: seq<Weighted>, b: seq<Weighted>)
    ensures WeightedSum(a + b) == WeightedSum(a) + WeightedSum(b)
  {
    if |a| > 0 {
      assert (a + b)[1..] == a[1..] + b;
      WeightedSumAppend(a[1..], b);
    } else {
      assert a + b == b;
    }
  }

  /** The weighted sum lies between 0 and the total share times the largest
      score, as a weighted mean does. */
  lemma {:induction false} WeightedSumBounds(terms: seq<Weighted>, top: real)
    requires top >= 0.0
    requires forall i :: 0 <= i < |terms| ==> terms[i].comppct_r >= 0.0
    requires forall i :: 0 <= i < |terms| ==>
               terms[i].score.Some? ==> 0.0 <= terms[i].score.value <= top
    ensures 0.0 <= WeightedSum(terms) <= TotalShare(terms) / 100.0 * top
  {
    if |terms| > 0 {
      WeightedSumBounds(terms[1..], top);
      var w := terms[0];
      var k := w.comppct_r / 100.0;
      assert 0.0 <= Term(w) <= k * top by {
        if w.score.Some? {
          MulLeft(k, w.score.value, top);
          MulLeft(k, 0.0, w.score.value);
        } else {
          MulLeft(k, 0.0, top);
        }
      }
      assert TotalShare(terms) / 100.0 * top == k * top + TotalShare(terms[1..]) / 100.0 * top;
    }
  }

  lemma MulLeft(k: real, x: real, y: real)
    requires k >= 0.0 && x <= y
    ensures k * x <= k * y
  {
  }

  /** Two components at 60 % and 40 % scoring 70 and 50 give 62. */
  lemma UnitScoreSixtyForty()
    ensures UnitScore([Weighted(60.0, Some(70.0)), Weighted(40.0, Some(50.0))]) == 62
  {
    var terms := [Weighted(60.0, Some(70.0)), Weighted(40.0, Some(50.0))];
    assert WeightedSum(terms) == 62.0 by {
      assert WeightedSum(terms[1..]) == 20.0;
    }
    RoundHalfEvenOfInt(62);
  }

  function Terms(t: Tables, rows: seq<Merged>): (terms: seq<Weighted>)
    ensures |terms| == |rows|
    ensures forall i :: 0 <= i < |rows| ==>
              terms[i] == Weighted(rows[i].comp.comppct_r, ComponentScore(t, rows[i]))
  {
    seq(|rows|, i requires 0 <= i < |rows| => Weighted(rows[i].comp.comppct_r, ComponentScore(t, rows[i])))
  }

  lemma TermsAppend(t: Tables, a: seq<Merged>, b: seq<Merged>)
    ensures Terms(t, a + b) == Terms(t, a) + Terms(t, b)
  {
    assert |Terms(t, a + b)| == |Terms(t, a) + Terms(t, b)|;
    forall i | 0 <= i < |a + b| ensures Terms(t, a + b)[i] == (Terms(t, a) + Terms(t, b))[i] {
      if i < |a| {
        assert (a + b)[i] == a[i];
      } else {
        assert (a + b)[i] == b[i - |a|];
      }
    }
  }

  /** The reference reading of the area weighting: one term per component
      with horizons, scored with its May record (or missing fields). */
  function ComponentTerms(t: Tables, watered: seq<Watered>, comnth: seq<ComponentMonth>): (terms: seq<Weighted>)
    ensures |terms| == |watered|
  {
    seq(|watered|, i requires 0 <= i < |watered| =>
      Weighted(watered[i].comp.comppct_r,
               ComponentScore(t, Merged(watered[i].comp, watered[i].cwhc, MayOf(comnth, watered[i].comp.cokey)))))
  }

  /** With at most one May record per component, the merged rows weight each
      component exactly once: the sum is the per-component sum of
      share/100 × score. */
  lemma {:induction false} MergeMayTermsPerComponent(t: Tables, watered: seq<Watered>, comnth: seq<ComponentMonth>)
    requires forall i :: 0 <= i < |watered| ==> |MayRecords(comnth, watered[i].comp.cokey)| <= 1
    ensures Terms(t, MergeMay(watered, comnth)) == ComponentTerms(t, watered, comnth)
    ensures WeightedSum(Terms(t, MergeMay(watered, comnth))) == WeightedSum(ComponentTerms(t, watered, comnth))
  {
    if |watered| > 0 {
      var w := watered[0];
      var row := Merged(w.comp, w.cwhc, MayOf(comnth, w.comp.cokey));
      assert MergeOne(w, MayRecords(comnth, w.comp.cokey)) == [row];
      assert forall i :: 0 <= i < |watered[1..]| ==> watered[1..][i] == watered[i + 1];
      MergeMayTermsPerComponent(t, watered[1..], comnth);
      TermsAppend(t, [row], MergeMay(watered[1..], comnth));
      assert ComponentTerms(t, watered, comnth) == Terms(t, [row]) + ComponentTerms(t, watered[1..], comnth);
    }
  }

  // --------------------------------------------------------- calc_csr2

  /** Failure modes of `calc_csr2` that the batch driver catches. */
  datatype Csr2Error =
    /** Every component that passed the taxonomy filter lacks horizon rows:
        the frame is empty after `dropna`, and assigning the result of
        `apply` on an empty frame to the `d_fact` column raises. */
    | NoComponentWithHorizons

  /** `calc_csr2` from the taxonomy filter on. */
  function ScoreFiltered(t: Tables, kept: seq<Component>, comnth: seq<ComponentMonth>,
                         cho: seq<Horizon>): (r: Result<int, Csr2Error>)
    ensures |kept| == 0 ==> r == Success(5)
    ensures |kept| > 0 && FloodDisqualified(MonthsOf(comnth, CokeysOf(kept))) ==> r == Success(5)
    ensures r.Failure? <==>
              |kept| > 0 && !FloodDisqualified(MonthsOf(comnth, CokeysOf(kept)))
              && forall c :: c in kept ==> !HasHorizons(cho, c.cokey)
    ensures r.Success? ==> r.value >= 5
  {
    if |kept| == 0 then Success(5)
    else
      var coms := MonthsOf(comnth, CokeysOf(kept));
      if FloodDisqualified(coms) then Success(5)
      else
        var watered := WithWater(kept, cho);
        if |watered| == 0 then Failure(NoComponentWithHorizons)
        else Success(UnitScore(Terms(t, MergeMay(watered, comnth))))
  }

  /** On the scoring path, with at most one May record per component, the
      unit's score is the rounded, floored sum of share/100 × score over the
      components that have horizons, one term each. */
  lemma ScoreFilteredValue(t: Tables, kept: seq<Component>, comnth: seq<ComponentMonth>, cho: seq<Horizon>)
    requires |kept| > 0 && !FloodDisqualified(MonthsOf(comnth, CokeysOf(kept)))
    requires exists c :: c in kept && HasHorizons(cho, c.cokey)
    requires forall w :: w in WithWater(kept, cho) ==> |MayRecords(comnth, w.comp.cokey)| <= 1
    ensures ScoreFiltered(t, kept, comnth, cho) == Success(UnitScore(ComponentTerms(t, WithWater(kept, cho), comnth)))
  {
    var watered := WithWater(kept, cho);
    var c :| c in kept && HasHorizons(cho, c.cokey);
    assert Watered(c, WaterCapacity(cho, c.cokey)) in watered;
    assert forall i :: 0 <= i < |watered| ==> watered[i] in watered;
    MergeMayTermsPerComponent(t, watered, comnth);
  }

  /** `calc_csr2(mukey)`: the early exits in the source's order (see
      `Csr2EarlyExits`), then the taxonomy filter, the flood tests and the
      area-weighted score. A success is 0 (the Miscellaneous Area exit) or at least 5. */
  function Csr2Score(t: Tables, mukey: string, component: seq<Component>,
                     comnth: seq<ComponentMonth>, cho: seq<Horizon>): (r: Result<int, Csr2Error>)
    ensures r.Success? ==> r.value == 0 || r.value >= 5
  {
    var sin := UnitComponents(component, mukey);
    if HasComponentNamed(sin, "Gullied Land") then Success(5)
    else if HasComponentNamed(sin, "Urban Land") then Success(5)
    else if NonIrrigatedClass5W(sin) then Success(25)
    else if MiscellaneousAreaIndexTest(sin) then Success(0)
    else ScoreFiltered(t, TaxonomyFiltered(t.sfac, sin), comnth, cho)
  }

  /** The early exits of `calc_csr2`, each taken only when the ones before
      it were not: Gullied Land 5, Urban Land 5, a non-irrigated class 5w
      component 25, the Miscellaneous Area label test 0; a 0 comes only
      from that last test. */
  lemma Csr2EarlyExits(t: Tables, mukey: string, component: seq<Component>,
                       comnth: seq<ComponentMonth>, cho: seq<Horizon>)
    ensures var sin := UnitComponents(component, mukey);
            var r := Csr2Score(t, mukey, component, comnth, cho);
            && (HasComponentNamed(sin, "Gullied Land") ==> r == Success(5))
            && (!HasComponentNamed(sin, "Gullied Land") && HasComponentNamed(sin, "Urban Land")
                ==> r == Success(5))
            && (!HasComponentNamed(sin, "Gullied Land") && !HasComponentNamed(sin, "Urban Land")
                && NonIrrigatedClass5W(sin)
                ==> r == Success(25))
            && (!HasComponentNamed(sin, "Gullied Land") && !HasComponentNamed(sin, "Urban Land")
                && !NonIrrigatedClass5W(sin) && MiscellaneousAreaIndexTest(sin)
                ==> r == Success(0))
            && (!HasComponentNamed(sin, "Gullied Land") && !HasComponentNamed(sin, "Urban Land")
                && !NonIrrigatedClass5W(sin) && !MiscellaneousAreaIndexTest(sin)
                ==> r == ScoreFiltered(t, TaxonomyFiltered(t.sfac, sin), comnth, cho))
            && (r == Success(0) ==> MiscellaneousAreaIndexTest(sin))
  {
  }

  /** Past the four exits, a unit none of whose components has a subgroup
      listed in the s-factor table scores 5. */
  lemma Csr2NoListedSubgroup(t: Tables, mukey: string, component: seq<Component>,
                             comnth: seq<ComponentMonth>, cho: seq<Horizon>)
    requires var sin := UnitComponents(component, mukey);
             && !HasComponentNamed(sin, "Gullied Land") && !HasComponentNamed(sin, "Urban Land")
             && !NonIrrigatedClass5W(sin) && !MiscellaneousAreaIndexTest(sin)
    requires forall c :: c in component && c.mukey == mukey && c.taxsubgrp.Some? ==> c.taxsubgrp.value !in t.sfac
    ensures Csr2Score(t, mukey, component, comnth, cho) == Success(5)
  {
    Csr2EarlyExits(t, mukey, component, comnth, cho);
    var kept := TaxonomyFiltered(t.sfac, UnitComponents(component, mukey));
    if |kept| > 0 {
      assert kept[0] in kept;
    }
  }

  /** On frames labelled by position the "Miscellaneous Area" test never fires. */
  lemma ReadComponentsNotMiscellaneous(component: seq<Component>, mukey: string)
    requires PositionalComponents(component)
    ensures !MiscellaneousAreaIndexTest(UnitComponents(component, mukey))
  {
    var sin := UnitComponents(component, mukey);
    forall i | 0 <= i < |sin| ensures sin[i].rowLabel.Pos? {
      assert sin[i] in component;
    }
  }

  /** On frames labelled by position no flood test disqualifies, whatever
      the month records hold: a "Very frequent" record does not force 5. */
  lemma ReadMonthsNeverDisqualify(comnth: seq<ComponentMonth>, cokeys: set<string>)
    requires PositionalMonths(comnth)
    ensures !FloodDisqualified(MonthsOf(comnth, cokeys))
  {
    var coms := MonthsOf(comnth, cokeys);
    forall i | 0 <= i < |coms| ensures coms[i].rowLabel.Pos? {
      assert coms[i] in comnth;
    }
  }

  /** On frames read from a survey database every score is at least 5, and
      scoring fails exactly when no component that passed the taxonomy
      filter has horizon rows. */
  lemma Csr2ScoreOnReadFrames(t: Tables, mukey: string, component: seq<Component>,
                              comnth: seq<ComponentMonth>, cho: seq<Horizon>)
    requires PositionalComponents(component) && PositionalMonths(comnth)
    ensures var r := Csr2Score(t, mukey, component, comnth, cho);
            r.Success? ==> r.value >= 5
    ensures var sin := UnitComponents(component, mukey);
            var kept := TaxonomyFiltered(t.sfac, sin);
            Csr2Score(t, mukey, component, comnth, cho).Failure? <==>
              !HasComponentNamed(sin, "Gullied Land") && !HasComponentNamed(sin, "Urban Land")
              && !NonIrrigatedClass5W(sin) && |kept| > 0
              && forall c :: c in kept ==> !HasHorizons(cho, c.cokey)
  {
    ReadComponentsNotMiscellaneous(component, mukey);
    var kept := TaxonomyFiltered(t.sfac, UnitComponents(component, mukey));
    ReadMonthsNeverDisqualify(comnth, CokeysOf(kept));
  }

  // ----------------------------------------------------------- process_csr2

  datatype Csr2Row = Csr2Row(mukey: string, csr2: int)

  /** The scoring of one unit, as the batch loop sees it. */
  type Scorer = string -> Result<int, Csr2Error>

  /** The row one unit contributes: none when its scoring fails. */
  function RowOf(score: Scorer, mukey: string): seq<Csr2Row> {
    var r := score(mukey);
    if r.Success? then [Csr2Row(mukey, r.value)] else []
  }

  /** The rows the loop emits for a list of keys: one per key whose scoring
      succeeds, in key order. */
  function RowsBy(score: Scorer, mukeys: seq<string>): (rows: seq<Csr2Row>)
    ensures |rows| <= |mukeys|
  {
    if |mukeys| == 0 then []
    else RowOf(score, mukeys[0]) + RowsBy(score, mukeys[1..])
  }

  /** Rows come out in key order: two runs of keys one after the other give
      the two row lists one after the other. */
  lemma {:induction false} RowsByAppend(score: Scorer, a: seq<string>, b: seq<string>)
    ensures RowsBy(score, a + b) == RowsBy(score, a) + RowsBy(score, b)
  {
    if |a| > 0 {
      assert (a + b)[0] == a[0];
      assert (a + b)[1..] == a[1..] + b;
      RowsByAppend(score, a[1..], b);
    } else {
      assert a + b == b;
    }
  }

  /** One more key adds that key's row, if any, at the end. */
  lemma RowsByStep(score: Scorer, mukeys: seq<string>, i: nat)
    requires i < |mukeys|
    ensures RowsBy(score, mukeys[..i + 1]) == RowsBy(score, mukeys[..i]) + RowOf(score, mukeys[i])
  {
    assert mukeys[..i + 1] == mukeys[..i] + [mukeys[i]];
    RowsByAppend(score, mukeys[..i], [mukeys[i]]);
    assert [mukeys[i]][1..] == [];
  }

  /** A row (k, v) is emitted exactly when k is one of the keys and scoring
      k succeeds with v. */
  lemma {:induction false} RowsByMembership(score: Scorer, mukeys: seq<string>, k: string, v: int)
    ensures Csr2Row(k, v) in RowsBy(score, mukeys) <==> k in mukeys && score(k) == Success(v)
  {
    if |mukeys| > 0 {
      RowsByMembership(score, mukeys[1..], k, v);
      assert k in mukeys <==> k == mukeys[0] || k in mukeys[1..] by {
        assert mukeys == [mukeys[0]] + mukeys[1..];
      }
    }
  }

  /** `calc_csr2` with the frames and tables fixed, as a function of the key. */
  function UnitScorer(t: Tables, component: seq<Component>, comnth: seq<ComponentMonth>,
                      cho: seq<Horizon>): Scorer {
    k => Csr2Score(t, k, component, comnth, cho)
  }

  /** The rows `process_csr2` emits for a list of map-unit keys. */
  function Csr2Rows(t: Tables, mukeys: seq<string>, component: seq<Component>,
                    comnth: seq<ComponentMonth>, cho: seq<Horizon>): seq<Csr2Row> {
    RowsBy(UnitScorer(t, component, comnth, cho), mukeys)
  }

  /** Each unit whose scoring succeeds gives exactly one row with its score;
      a unit whose scoring fails contributes no row. */
  lemma Csr2RowsMembership(t: Tables, mukeys: seq<string>, k: string, v: int,
                           component: seq<Component>, comnth: seq<ComponentMonth>, cho: seq<Horizon>)
    ensures Csr2Row(k, v) in Csr2Rows(t, mukeys, component, comnth, cho)
            <==> k in mukeys && Csr2Score(t, k, component, comnth, cho) == Success(v)
  {
    RowsByMembership(UnitScorer(t, component, comnth, cho), mukeys, k, v);
  }

  /** How the batch ends when written as in the source: the handler's call
      to `utils.log_event` passes a keyword `log_event` does not take, so
      the handler itself raises, naming the first unit that failed. */
  datatype BatchError = HandlerRaised(mukey: string)

  /** The loop AS WRITTEN: rows accumulate until the first unit whose
      scoring fails, and then the whole batch fails. */
  function RowsAsWrittenBy(score: Scorer, mukeys: seq<string>): (r: Result<seq<Csr2Row>, BatchError>)
    ensures r.Failure? ==> r.error.mukey in mukeys && score(r.error.mukey).Failure?
  {
    if |mukeys| == 0 then Success([])
    else
      match score(mukeys[0])
      case Failure(_) => Failure(HandlerRaised(mukeys[0]))
      case Success(v) =>
        match RowsAsWrittenBy(score, mukeys[1..])
        case Failure(e) => Failure(e)
        case Success(rows) => Success([Csr2Row(mukeys[0], v)] + rows)
  }

  /** As written, the batch succeeds exactly when every unit scores, and then
      agrees with the intended rows; otherwise it yields no rows at all. */
  lemma {:induction false} RowsAsWrittenAgrees(score: Scorer, mukeys: seq<string>)
    ensures RowsAsWrittenBy(score, mukeys).Success? <==> forall k :: k in mukeys ==> score(k).Success?
    ensures RowsAsWrittenBy(score, mukeys).Success? ==> RowsAsWrittenBy(score, mukeys).value == RowsBy(score, mukeys)
  {
    if |mukeys| > 0 {
      RowsAsWrittenAgrees(score, mukeys[1..]);
      assert forall k :: k in mukeys <==> k == mukeys[0] || k in mukeys[1..] by {
        assert mukeys == [mukeys[0]] + mukeys[1..];
      }
    }
  }

  function Csr2RowsAsWritten(t: Tables, mukeys: seq<string>, component: seq<Component>,
                             comnth: seq<ComponentMonth>, cho: seq<Horizon>)
    : Result<seq<Csr2Row>, BatchError> {
    RowsAsWrittenBy(UnitScorer(t, component, comnth, cho), mukeys)
  }

  function MukeysOf(mapunit: seq<MapUnit>): (keys: seq<string>)
    ensures |keys| == |mapunit|
    ensures forall i :: 0 <= i < |mapunit| ==> keys[i] == mapunit[i].mukey
  {
    seq(|mapunit|, i requires 0 <= i < |mapunit| => mapunit[i].mukey)
  }

  /** The map units whose symbol in the aggregated attributes layer is '221B'. */
  function Mukeys221B(agg: seq<MuAggAtt>): set<string> {
    set a | a in agg && a.musym == "221B" :: a.mukey
  }

  /** `dct_ej_add.update({k: 10 for the '221B' units})`. */
  function UpdatedEjAdd(ejAdd: map<string, int>, agg: seq<MuAggAtt>): (r: map<string, int>)
    ensures forall k :: k in Mukeys221B(agg) ==> k in r && r[k] == 10
    ensures forall k :: k !in Mukeys221B(agg) ==> (k in r <==> k in ejAdd)
    ensures forall k :: k !in Mukeys221B(agg) && k in ejAdd ==> r[k] == ejAdd[k]
  {
    ejAdd + map k | k in Mukeys221B(agg) :: 10
  }

  /** After the update a '221B' unit's correction takes away exactly 10 for
      the unit, whatever the table held for it before. */
  lemma EjAfter221B(ejAdd: map<string, int>, ejSubst: map<string, int>, agg: seq<MuAggAtt>,
                    compname: string, mukey: string)
    requires mukey in Mukeys221B(agg) && compname !in Mukeys221B(agg)
    ensures EjFactor(UpdatedEjAdd(ejAdd, agg), ejSubst, compname, mukey)
            == GetOr(ejSubst, compname, 0) - GetOr(ejAdd, compname, 0) - 10
  {
  }

  /** The module-level lookup tables of csr2.py. Only the EJ addition table
      is ever changed, by `ProcessCsr2`. */
  class Csr2Tables {
    const sfac: map<string, int>
    const mfac: map<string, int>
    const ejSubst: map<string, int>
    var ejAdd: map<string, int>

    constructor (sfac: map<string, int>, mfac: map<string, int>,
                 ejAdd: map<string, int>, ejSubst: map<string, int>)
      ensures this.sfac == sfac && this.mfac == mfac
      ensures this.ejAdd == ejAdd && this.ejSubst == ejSubst
    {
      this.sfac, this.mfac, this.ejAdd, this.ejSubst := sfac, mfac, ejAdd, ejSubst;
    }

    function Current(): Tables
      reads this
    {
      Tables(sfac, mfac, ejAdd, ejSubst)
    }

    /** `process_csr2`: extend the EJ addition table with the '221B' units,
        then score every map unit in order and emit a row for each one that
        scores without failing. */
    method ProcessCsr2(mapunit: seq<MapUnit>, agg: seq<MuAggAtt>, component: seq<Component>,
                       comnth: seq<ComponentMonth>, cho: seq<Horizon>) returns (df: seq<Csr2Row>)
      modifies this
      ensures ejAdd == UpdatedEjAdd(old(ejAdd), agg)
      ensures df == Csr2Rows(Current(), MukeysOf(mapunit), component, comnth, cho)
    {
      ejAdd := UpdatedEjAdd(ejAdd, agg);
      var t := Tables(sfac, mfac, ejAdd, ejSubst);
      var mukeys := MukeysOf(mapunit);
      df := [];
      var ii := 0;
      while ii < |mukeys|
        modifies {}
        invariant 0 <= ii <= |mukeys|
        invariant df == Csr2Rows(t, mukeys[..ii], component, comnth, cho)
      {
        var mukey := mukeys[ii];
        var val := Csr2Score(t, mukey, component, comnth, cho);
        if val.Success? {
          df := df + [Csr2Row(mukey, val.value)];
        }
        RowsByStep(UnitScorer(t, component, comnth, cho), mukeys, ii);
        ii := ii + 1;
      }
      assert mukeys[..ii] == mukeys;
      assert Current() == t;
    }
  }
}

/** A worked map unit, scored from its survey rows. */
module Csr2Examples {
  import opened Wrappers
  import opened Text
  import opened Survey
  import opened Csr2Factors
  import opened Csr2

  /** A component on a flat slope (1 %) with every optional cell missing: no
      particle-size class, no T factor, no local phase or erosion class. */
  function Plain(n: int, cokey: string, compname: string, share: real, subgroup: string): Component {
    Component(Pos(n), "u1", cokey, compname, None, share, None, NonNumeric,
              None, Some(subgroup), None, NonNumeric, Real(1.0), None)
  }

  const ExampleTables := Tables(map["Typic" := 70, "Aquic" := 50], map[], map[], map[])
  const ExampleA := Plain(0, "c1", "Alpha", 60.0, "Typic")
  const ExampleB := Plain(1, "c2", "Beta", 40.0, "Aquic")
  const ExampleHorizons := [Horizon("c1", 0.0, 100.0, 0.1), Horizon("c2", 0.0, 100.0, 0.1)]

  /** Two components at 60 % and 40 % whose subgroups score 70 and 50, each with
      10 cm of available water and no other penalty: the unit scores 62. */
  lemma SixtyFortyUnit()
    ensures Csr2Score(ExampleTables, "u1", [ExampleA, ExampleB], [], ExampleHorizons) == Success(62)
  {
    ExampleSelection();
    ExampleWater();
    ExampleTerms();
    UnitScoreSixtyForty();
  }

  lemma ExampleSelection()
    ensures Csr2Score(ExampleTables, "u1", [ExampleA, ExampleB], [], ExampleHorizons)
            == ScoreFiltered(ExampleTables, [ExampleA, ExampleB], [], ExampleHorizons)
    ensures !FloodDisqualified(MonthsOf([], CokeysOf([ExampleA, ExampleB])))
  {
    ExampleUnit();
    ExampleNoEarlyExit();
    Csr2EarlyExits(ExampleTables, "u1", [ExampleA, ExampleB], [], ExampleHorizons);
    ExampleKept();
    assert MonthsOf([], CokeysOf([ExampleA, ExampleB])) == [];
  }

  lemma ExampleUnit()
    ensures UnitComponents([ExampleA, ExampleB], "u1") == [ExampleA, ExampleB]
  {
    assert UnitComponents([ExampleB], "u1") == [ExampleB];
  }

  lemma ExampleNoEarlyExit()
    ensures var sin := [ExampleA, ExampleB];
            && !HasComponentNamed(sin, "Gullied Land") && !HasComponentNamed(sin, "Urban Land")
            && !NonIrrigatedClass5W(sin) && !MiscellaneousAreaIndexTest(sin)
  {
  }

  lemma ExampleKept()
    ensures TaxonomyFiltered(ExampleTables.sfac, [ExampleA, ExampleB]) == [ExampleA, ExampleB]
  {
    assert TaxonomyFiltered(ExampleTables.sfac, [ExampleB]) == [ExampleB];
  }

  lemma ExampleWater()
    ensures WithWater([ExampleA, ExampleB], ExampleHorizons)
            == [Watered(ExampleA, 10.0), Watered(ExampleB, 10.0)]
  {
    var cho := ExampleHorizons;
    assert HasHorizons(cho, "c1") && HasHorizons(cho, "c2") by {
      assert cho[0].cokey == "c1" && cho[1].cokey == "c2";
    }
    assert WaterCapacity(cho, "c1") == 10.0 && WaterCapacity(cho, "c2") == 10.0;
  }

  lemma ExampleTerms()
    ensures Terms(ExampleTables, MergeMay([Watered(ExampleA, 10.0), Watered(ExampleB, 10.0)], []))
            == [Weighted(60.0, Some(70.0)), Weighted(40.0, Some(50.0))]
  {
    ExampleMerge();
    ExampleScores();
  }

  lemma ExampleMerge()
    ensures MergeMay([Watered(ExampleA, 10.0), Watered(ExampleB, 10.0)], [])
            == [Merged(ExampleA, 10.0, NoMayRecord), Merged(ExampleB, 10.0, NoMayRecord)]
  {
    var wa, wb := Watered(ExampleA, 10.0), Watered(ExampleB, 10.0);
    assert MergeMay([wb], []) == [Merged(ExampleB, 10.0, NoMayRecord)];
    assert [wa, wb][1..] == [wb];
  }

  lemma ExampleScores()
    ensures ComponentScore(ExampleTables, Merged(ExampleA, 10.0, NoMayRecord)) == Some(70.0)
    ensures ComponentScore(ExampleTables, Merged(ExampleB, 10.0, NoMayRecord)) == Some(50.0)
  {
    var t := ExampleTables;
    var ra, rb := Merged(ExampleA, 10.0, NoMayRecord), Merged(ExampleB, 10.0, NoMayRecord);
    NoPenalties(t, ra);
    NoPenalties(t, rb);
  }

  /** A batch of two units: "u0" has no components and scores 5, "u1" has
      one listed component without horizon rows, so its scoring fails. The
      intended batch emits the row for "u0"; as written the batch fails. */
  lemma BatchStopsAtFailingUnit()
    ensures Csr2Rows(ExampleTables, ["u0", "u1"], [ExampleA], [], []) == [Csr2Row("u0", 5)]
    ensures Csr2RowsAsWritten(ExampleTables, ["u0", "u1"], [ExampleA], [], []) == Failure(HandlerRaised("u1"))
  {
    var score := UnitScorer(ExampleTables, [ExampleA], [], []);
    EmptyUnitScoresFive();
    UnitWithoutHorizonsFails();
    assert score("u0") == Success(5) && score("u1").Failure?;
    assert ["u0", "u1"][1..] == ["u1"];
    assert ["u1"][1..] == [];
  }

  lemma EmptyUnitScoresFive()
    ensures Csr2Score(ExampleTables, "u0", [ExampleA], [], []) == Success(5)
  {
    assert UnitComponents([ExampleA], "u0") == [];
  }

  lemma UnitWithoutHorizonsFails()
    ensures Csr2Score(ExampleTables, "u1", [ExampleA], [], []) == Failure(NoComponentWithHorizons)
  {
    assert UnitComponents([ExampleA], "u1") == [ExampleA];
    Csr2EarlyExits(ExampleTables, "u1", [ExampleA], [], []);
    assert TaxonomyFiltered(ExampleTables.sfac, [ExampleA]) == [ExampleA];
    assert MonthsOf([], CokeysOf([ExampleA])) == [];
  }

  /** Missing cells, a flat slope and tables without entries give no penalty
      at all. */
  lemma NoPenalties(t: Tables, row: Merged)
    requires t.mfac == map[] && t.ejAdd == map[] && t.ejSubst == map[]
    requires row.may == NoMayRecord && row.cwhc >= 9.0
    requires row.comp.taxpartsize.None? && row.comp.tfact.NonNumeric? && row.comp.slope_r.Real? && row.comp.slope_r.x < 2.0
    requires row.comp.localphase.None? && row.comp.erocl.None?
    ensures MFactor(t.mfac, row.comp.taxpartsize) == 0
    ensures WFactor(Real(row.cwhc)) == 0
    ensures FFactor(row) == 0.0
    ensures DFactor(row.comp.compname, row.comp.tfact) == Some(0)
    ensures EjFactor(t.ejAdd, t.ejSubst, row.comp.compname, row.comp.mukey) == 0
  {
    assert !Contains("", "skeletal") && !Contains("", "calcareous");
    assert !Contains("None", "channeled");
    assert !Contains("None", "Class 2") by {
      assert !Contains("one", "Class 2");
    }
  }
}

/** The rows of the soil-survey layers the scorers read: `mapunit`,
    `muaggatt`, `component`, `chorizon` and `comonth`. A missing text cell
    is `None`; a cell that Python's `float()`/`int()` may reject is a `Num`. */
module Survey {
  import opened Wrappers

  /** A cell that is either a number or something the scorer's `float()` or
      `int()` test rejects: a non-numeric text, or a missing value (NaN) where
      the test is `int()`. NaN is a value `int()` rejects but `float()`
      accepts, so a missing slope is not `NonNumeric`. */
  datatype Num = Real(x: real) | NonNumeric

  /** A row label of a data frame. Testing `x in column` on a pandas Series
      looks among these labels, not among the column's values. Frames read
      from a survey database are labelled by position, `Pos(0)`, `Pos(1)`, ... */
  datatype Label = Pos(n: int) | Name(s: string)

  datatype MapUnit = MapUnit(mukey: string, muname: string, musym: string)

  /** A row of the map-unit aggregated attributes layer. */
  datatype MuAggAtt = MuAggAtt(mukey: string, musym: string)

  datatype Component = Component(
    rowLabel: Label,
    mukey: string,
    cokey: string,
    compname: string,
    compkind: Option<string>,
    comppct_r: real,
    nirrcapscl: Option<string>,
    nirrcapcl: Num,
    localphase: Option<string>,
    taxsubgrp: Option<string>,
    taxpartsize: Option<string>,
    tfact: Num,
    slope_r: Num,
    erocl: Option<string>)

  /** A soil horizon: top and bottom depth and available water capacity. */
  datatype Horizon = Horizon(cokey: string, hzdept_r: real, hzdepb_r: real, awc_r: real)

  /** A component-month record: flooding and ponding frequency and duration classes. */
  datatype ComponentMonth = ComponentMonth(
    rowLabel: Label,
    cokey: string,
    month: string,
    flodfreqcl: Option<string>,
    floddurcl: Option<string>,
    pondfreqcl: Option<string>,
    ponddurcl: Option<string>)

  /** Python's `str(v)` of a possibly missing text cell. */
  function Str(v: Option<string>): (s: string)
    ensures v.Some? ==> s == v.value
    ensures v.None? ==> s == "None"
  {
    match v
    case Some(t) => t
    case None => "None"
  }

  /** Every row of a frame read from the survey database is labelled by position. */
  predicate PositionalComponents(rows: seq<Component>) {
    forall i :: 0 <= i < |rows| ==> rows[i].rowLabel.Pos?
  }

  predicate PositionalMonths(rows: seq<ComponentMonth>) {
    forall i :: 0 <= i < |rows| ==> rows[i].rowLabel.Pos?
  }
}

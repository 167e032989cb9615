/**
 Result entry for one sample: each typed value is classified against its
 parameter's normal and critical ranges, the list of entries is kept keyed by
 parameter (one entry per parameter, updated in place), and the screen shows
 a severity badge per parameter and three summary counts.
 */
module Results {
  import opened Seqs

  datatype Range = Range(min: real, max: real)

  /** A measured quantity of a test panel, with its reference ranges. */
  datatype TestParameter = TestParameter(
    id: string,
    name: string,
    unit: string,
    normalRange: Range,
    criticalRange: Option<Range>)

  /** What `parseFloat` makes of the typed text: a number, or NaN when it cannot be read. */
  datatype Reading = Num(x: real) | NaN

  /** One recorded value with its derived flags. */
  datatype ResultEntry = ResultEntry(
    parameterId: string,
    value: Reading,
    isAbnormal: bool,
    isCritical: bool,
    comment: Option<string>)

  /** The severity badge shown beside a parameter. */
  datatype Badge = CriticalBadge | AbnormalBadge | NormalBadge

  /** The Complete Blood Count panel the entry screen offers. */
  const CbcParameters: seq<TestParameter> := [
    TestParameter("WBC", "White Blood Cells", "cells/μL", Range(4000.0, 11000.0), Some(Range(2000.0, 20000.0))),
    TestParameter("RBC", "Red Blood Cells", "cells/μL", Range(4200000.0, 5400000.0), Some(Range(3000000.0, 7000000.0))),
    TestParameter("HGB", "Hemoglobin", "g/dL", Range(12.0, 15.5), Some(Range(7.0, 20.0))),
    TestParameter("HCT", "Hematocrit", "%", Range(36.0, 46.0), Some(Range(20.0, 60.0))),
    TestParameter("PLT", "Platelets", "cells/μL", Range(150000.0, 450000.0), Some(Range(50000.0, 1000000.0)))
  ]

  /** Below the minimum or above the maximum; every comparison with NaN is false. */
  predicate Outside(v: Reading, r: Range)
  {
    v.Num? && (v.x < r.min || v.x > r.max)
  }

  /** The abnormal flag: the reading falls outside the closed normal range; NaN never does. */
  predicate IsAbnormal(p: TestParameter, v: Reading)
    ensures v.NaN? ==> !IsAbnormal(p, v)
  {
    Outside(v, p.normalRange)
  }

  /** The critical flag: only a parameter with a critical range can raise it; NaN never does. */
  predicate IsCritical(p: TestParameter, v: Reading)
    ensures p.criticalRange.None? || v.NaN? ==> !IsCritical(p, v)
  {
    p.criticalRange.Some? && Outside(v, p.criticalRange.value)
  }

  /** The critical range, when present, contains the normal range. */
  predicate Nested(p: TestParameter)
  {
    p.criticalRange.Some? ==>
      p.criticalRange.value.min <= p.normalRange.min && p.normalRange.max <= p.criticalRange.value.max
  }

  /** With nested ranges a critical reading is always abnormal as well. */
  lemma CriticalImpliesAbnormal(p: TestParameter, v: Reading)
    requires Nested(p)
    ensures IsCritical(p, v) ==> IsAbnormal(p, v)
  {
  }

  /** Every parameter of the blood count panel has a critical range around its normal range. */
  lemma CbcRangesNested()
    ensures forall i :: 0 <= i < |CbcParameters| ==>
      CbcParameters[i].criticalRange.Some? && Nested(CbcParameters[i])
  {
  }

  /** The index of the first parameter with the given id, or -1. */
  function ParamIndex(params: seq<TestParameter>, id: string): (k: int)
    ensures -1 <= k < |params|
    ensures k == -1 <==> forall i :: 0 <= i < |params| ==> params[i].id != id
    ensures k != -1 ==> params[k].id == id && forall j :: 0 <= j < k ==> params[j].id != id
  {
    FindIndex(params, (p: TestParameter) => p.id == id)
  }

  /** Some entry of the list is for the parameter. */
  predicate HasEntry(results: seq<ResultEntry>, id: string)
  {
    exists i :: 0 <= i < |results| && results[i].parameterId == id
  }

  /** At most one entry per parameter. */
  predicate KeyedByParameter(results: seq<ResultEntry>)
  {
    forall i, j :: 0 <= i < j < |results| ==> results[i].parameterId != results[j].parameterId
  }

  /** The entry a new reading produces: an existing entry keeps its id and comment. */
  function Reclassify(e: ResultEntry, p: TestParameter, v: Reading): ResultEntry
  {
    e.(value := v, isAbnormal := IsAbnormal(p, v), isCritical := IsCritical(p, v))
  }

  /**
   Record a reading for a parameter. An unknown parameter changes nothing; an
   existing entry is reclassified in place; otherwise a new entry is appended.
   */
  function UpdateResult(params: seq<TestParameter>, results: seq<ResultEntry>, id: string, v: Reading): (r: seq<ResultEntry>)
    ensures ParamIndex(params, id) == -1 ==> r == results
    ensures ParamIndex(params, id) != -1 && HasEntry(results, id) ==>
      |r| == |results| &&
      forall i :: 0 <= i < |results| ==>
        r[i] == if results[i].parameterId == id then Reclassify(results[i], params[ParamIndex(params, id)], v) else results[i]
    ensures ParamIndex(params, id) != -1 && !HasEntry(results, id) ==>
      var p := params[ParamIndex(params, id)];
      r == results + [ResultEntry(id, v, IsAbnormal(p, v), IsCritical(p, v), None)]
  {
    var k := ParamIndex(params, id);
    if k == -1 then results
    else
      var p := params[k];
      if Find(results, (e: ResultEntry) => e.parameterId == id).Some? then
        Map(results, (e: ResultEntry) => if e.parameterId == id then Reclassify(e, p, v) else e)
      else
        results + [ResultEntry(id, v, IsAbnormal(p, v), IsCritical(p, v), None)]
  }

  /** Updating keeps the list keyed by parameter, and afterwards the parameter has an entry. */
  lemma UpdateKeepsKeyed(params: seq<TestParameter>, results: seq<ResultEntry>, id: string, v: Reading)
    requires KeyedByParameter(results)
    ensures KeyedByParameter(UpdateResult(params, results, id, v))
    ensures ParamIndex(params, id) != -1 ==> HasEntry(UpdateResult(params, results, id, v), id)
  {
    var r := UpdateResult(params, results, id, v);
    if ParamIndex(params, id) != -1 {
      if HasEntry(results, id) {
        var i :| 0 <= i < |results| && results[i].parameterId == id;
        assert r[i].parameterId == id;
      } else {
        assert r[|results|].parameterId == id;
      }
    }
  }

  /** `getStatusBadge`: nothing without an entry, else the severity of the first entry for the parameter. */
  function StatusBadge(results: seq<ResultEntry>, id: string): (r: Option<Badge>)
    ensures r == None <==> !HasEntry(results, id)
  {
    match Find(results, (e: ResultEntry) => e.parameterId == id)
    case None => None
    case Some(e) =>
      if e.isCritical then Some(CriticalBadge)
      else if e.isAbnormal then Some(AbnormalBadge)
      else Some(NormalBadge)
  }

  /** The badge a classified reading earns. */
  function Severity(p: TestParameter, v: Reading): Badge
  {
    if IsCritical(p, v) then CriticalBadge
    else if IsAbnormal(p, v) then AbnormalBadge
    else NormalBadge
  }

  /**
   After a reading is recorded for a known parameter, the parameter's badge is
   the severity of that reading: Critical over Abnormal over Normal.
   */
  lemma BadgeAfterUpdate(params: seq<TestParameter>, results: seq<ResultEntry>, id: string, v: Reading)
    requires ParamIndex(params, id) != -1
    ensures StatusBadge(UpdateResult(params, results, id, v), id) == Some(Severity(params[ParamIndex(params, id)], v))
  {
    var r := UpdateResult(params, results, id, v);
    var p := params[ParamIndex(params, id)];
    var found := Find(r, (e: ResultEntry) => e.parameterId == id);
    if HasEntry(results, id) {
      var i :| 0 <= i < |results| && results[i].parameterId == id;
      assert r[i].parameterId == id;
    } else {
      assert r[|results|].parameterId == id;
    }
    var k :| FirstMatch(r, (e: ResultEntry) => e.parameterId == id, k) && found.value == r[k];
    if HasEntry(results, id) {
      assert r[k] == Reclassify(results[k], p, v);
    } else {
      assert k == |results|;
    }
  }

  /**
   Text that does not parse reads as NaN; every range comparison with NaN is
   false, so recording it for a known parameter clears both flags and the
   badge shows Normal.
   */
  lemma NaNReadingBadgeNormal(params: seq<TestParameter>, results: seq<ResultEntry>, id: string)
    requires ParamIndex(params, id) != -1
    ensures StatusBadge(UpdateResult(params, results, id, NaN), id) == Some(NormalBadge)
  {
    BadgeAfterUpdate(params, results, id, NaN);
  }

  function CriticalCount(results: seq<ResultEntry>): nat
  {
    Count(results, (e: ResultEntry) => e.isCritical)
  }

  /** Abnormal but not critical. */
  function AbnormalCount(results: seq<ResultEntry>): nat
  {
    Count(results, (e: ResultEntry) => e.isAbnormal && !e.isCritical)
  }

  /** The "normal" summary figure, computed as the source does, by subtraction. */
  function NormalCount(results: seq<ResultEntry>): int
  {
    |results| - CriticalCount(results) - AbnormalCount(results)
  }

  /**
   The three summary counts partition the entries: the subtracted "normal"
   figure is exactly the number of entries with neither flag set.
   */
  lemma CountsPartition(results: seq<ResultEntry>)
    ensures NormalCount(results) == Count(results, (e: ResultEntry) => !e.isAbnormal && !e.isCritical)
    ensures CriticalCount(results) + AbnormalCount(results) + NormalCount(results) == |results|
    ensures NormalCount(results) >= 0
  {
    CountSplit3(results,
      (e: ResultEntry) => e.isCritical,
      (e: ResultEntry) => e.isAbnormal && !e.isCritical,
      (e: ResultEntry) => !e.isAbnormal && !e.isCritical);
  }

  /**
   The white-cell examples: 7000 is normal, 12000 abnormal but not critical,
   25000 critical; recorded into an empty list they earn those badges.
   */
  lemma WhiteCellExamples()
    ensures !IsAbnormal(CbcParameters[0], Num(7000.0)) && !IsCritical(CbcParameters[0], Num(7000.0))
    ensures IsAbnormal(CbcParameters[0], Num(12000.0)) && !IsCritical(CbcParameters[0], Num(12000.0))
    ensures IsCritical(CbcParameters[0], Num(25000.0))
    ensures StatusBadge(UpdateResult(CbcParameters, [], "WBC", Num(7000.0)), "WBC") == Some(NormalBadge)
    ensures StatusBadge(UpdateResult(CbcParameters, [], "WBC", Num(12000.0)), "WBC") == Some(AbnormalBadge)
    ensures StatusBadge(UpdateResult(CbcParameters, [], "WBC", Num(25000.0)), "WBC") == Some(CriticalBadge)
  {
    assert ParamIndex(CbcParameters, "WBC") == 0;
    BadgeAfterUpdate(CbcParameters, [], "WBC", Num(7000.0));
    BadgeAfterUpdate(CbcParameters, [], "WBC", Num(12000.0));
    BadgeAfterUpdate(CbcParameters, [], "WBC", Num(25000.0));
  }
}

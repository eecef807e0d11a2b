/**
 * Properties of the energy optimizer's validators, formulas and
 * classification that relate several calls or concrete batches.
 */
module EnergyOptimizerProperties {
  import opened Rounding
  import opened EnergyOptimizer

  function Abs(x: real): (r: real)
  {
    if x < 0.0 then -x else x
  }

  // ---------------------------------------------------------------------
  // Validation

  /** The structure summary sees only the number of records, never their values. */
  lemma StructureIgnoresValues(a: seq<MachineData>, b: seq<MachineData>)
    requires |a| == |b|
    ensures ValidateDataStructure(a) == ValidateDataStructure(b)
  {
  }

  /** The power flag reads only the power values, the hours flag only the hours. */
  lemma FlagsAreIndependent(a: seq<MachineData>, b: seq<MachineData>)
    requires |a| == |b|
    ensures (forall i | 0 <= i < |a| :: a[i].powerUsageKw == b[i].powerUsageKw) ==>
              TypeChecks(a).powerUsageKw == TypeChecks(b).powerUsageKw
    ensures (forall i | 0 <= i < |a| :: a[i].operationalHours == b[i].operationalHours) ==>
              TypeChecks(a).operationalHours == TypeChecks(b).operationalHours
  {
  }

  /** One record with a non-positive value marks its field NotValid for the whole batch. */
  lemma OneBadRecordDecides(data: seq<MachineData>, i: int)
    requires 0 <= i < |data|
    ensures data[i].powerUsageKw <= 0.0 ==> TypeChecks(data).powerUsageKw == NotValid
    ensures data[i].operationalHours <= 0.0 ==> TypeChecks(data).operationalHours == NotValid
  {
  }

  /** Once a flag is NotValid, no further record brings it back to Validated. */
  lemma {:induction false} NotValidIsFinal(s: seq<MachineData>, t: seq<MachineData>)
    ensures TypeChecks(s).powerUsageKw == NotValid ==> TypeChecks(s + t).powerUsageKw == NotValid
    ensures TypeChecks(s).operationalHours == NotValid ==> TypeChecks(s + t).operationalHours == NotValid
  {
    if TypeChecks(s).powerUsageKw == NotValid {
      var i :| 0 <= i < |s| && s[i].powerUsageKw <= 0.0;
      assert (s + t)[i] == s[i];
    }
    if TypeChecks(s).operationalHours == NotValid {
      var i :| 0 <= i < |s| && s[i].operationalHours <= 0.0;
      assert (s + t)[i] == s[i];
    }
  }

  /** Every record of `a` also occurs in `b` when the two hold the same records. */
  lemma SameRecordsOccur(a: seq<MachineData>, b: seq<MachineData>, i: int)
    requires multiset(a) == multiset(b)
    requires 0 <= i < |a|
    ensures exists j :: 0 <= j < |b| && b[j] == a[i]
  {
    assert a[i] in multiset(a);
    assert a[i] in b;
  }

  /** Reordering the batch does not change either flag. */
  lemma {:induction false} OrderIrrelevant(a: seq<MachineData>, b: seq<MachineData>)
    requires multiset(a) == multiset(b)
    ensures TypeChecks(a) == TypeChecks(b)
  {
    forall i | 0 <= i < |a|
      ensures exists j :: 0 <= j < |b| && b[j] == a[i]
    {
      SameRecordsOccur(a, b, i);
    }
    forall j | 0 <= j < |b|
      ensures exists i :: 0 <= i < |a| && a[i] == b[j]
    {
      SameRecordsOccur(b, a, j);
    }
  }

  /** A batch in which one machine reports -5 kW: power NotValid, hours Validated. */
  lemma NegativePowerBatch()
    ensures TypeChecks([MachineData("M1", 100.0, 8.0), MachineData("M2", -5.0, 6.0), MachineData("M3", 50.0, 9.0)])
            == TypeReport(NotValid, Validated)
  {
    var data := [MachineData("M1", 100.0, 8.0), MachineData("M2", -5.0, 6.0), MachineData("M3", 50.0, 9.0)];
    assert data[1].powerUsageKw <= 0.0;
  }

  // ---------------------------------------------------------------------
  // Formulas and classification

  /** Consumption does not depend on the order of its two factors. */
  lemma ConsumptionSymmetric(powerUsage: real, hours: real)
    ensures EnergyConsumption(powerUsage, hours) == EnergyConsumption(hours, powerUsage)
  {
  }

  /**
   * The classification in terms of the unrounded product: a machine is
   * inefficient exactly when power times hours exceeds 500.005 kWh, so a
   * raw consumption in (500, 500.005] still counts as efficient.
   */
  lemma InefficientIffRawAbove(m: MachineData)
    ensures Analyze(m).Inefficient? <==> m.powerUsageKw * m.operationalHours > 500.005
  {
    ConsumptionAboveThreshold(m.powerUsageKw, m.operationalHours);
  }

  /** The rounded consumption exceeds the threshold exactly when the raw product exceeds 500.005. */
  lemma ConsumptionAboveThreshold(powerUsage: real, hours: real)
    ensures EnergyConsumption(powerUsage, hours) > InefficiencyThreshold <==> powerUsage * hours > 500.005
  {
    Round2AboveWhole(powerUsage * hours, 500);
  }

  /** The classification is decided by the rounded consumption alone. */
  lemma ClassifiedByConsumption(m1: MachineData, m2: MachineData)
    requires EnergyConsumption(m1.powerUsageKw, m1.operationalHours)
          == EnergyConsumption(m2.powerUsageKw, m2.operationalHours)
    ensures Analyze(m1).Inefficient? == Analyze(m2).Inefficient?
    ensures Analyze(m1).consumption == Analyze(m2).consumption
  {
  }

  /** |a * e| <= |a| * d whenever |e| <= d. */
  lemma ScaledBound(a: real, e: real, d: real)
    requires -d <= e <= d
    ensures -(Abs(a) * d) <= a * e <= Abs(a) * d
  {
    if a >= 0.0 {
      assert a * e <= a * d;
      assert a * (-d) <= a * e;
    } else {
      assert a * e <= a * (-d);
      assert a * d <= a * e;
    }
  }

  /**
   * Running the recommended hours uses the threshold up to the rounding of
   * the hours: within half a hundredth of an hour at the machine's power.
   */
  lemma HoursMeetThreshold(powerUsage: real, hours: real)
    requires RecommendedHours(powerUsage) == Success(hours)
    ensures -(0.005 * Abs(powerUsage)) <= powerUsage * hours - InefficiencyThreshold
    ensures powerUsage * hours - InefficiencyThreshold <= 0.005 * Abs(powerUsage)
  {
    var p, h := powerUsage, hours;
    var q := InefficiencyThreshold / p;
    var e := h - q;
    ScaledBound(p, e, 0.005);
    assert p * q == InefficiencyThreshold;
    assert p * h == p * q + p * e;
  }

  /**
   * The energy savings are the excess over the threshold, up to the two
   * roundings that produce them.
   */
  lemma SavingsApproximateExcess(m: MachineData)
    requires Analyze(m).Inefficient?
    ensures -(0.005 * Abs(m.powerUsageKw) + 0.005)
            <= Analyze(m).energySavings - (Analyze(m).consumption - InefficiencyThreshold)
    ensures Analyze(m).energySavings - (Analyze(m).consumption - InefficiencyThreshold)
            <= 0.005 * Abs(m.powerUsageKw) + 0.005
  {
    var a := Analyze(m);
    SavingsNearExcess(a.consumption, m.powerUsageKw, a.recommendedHours, a.energySavings);
  }

  /** The savings formula over the recommended hours approximates the excess over the threshold. */
  lemma SavingsNearExcess(consumption: real, powerUsage: real, hours: real, savings: real)
    requires RecommendedHours(powerUsage) == Success(hours)
    requires savings == EnergySavings(consumption, powerUsage, hours)
    ensures -(0.005 * Abs(powerUsage) + 0.005) <= savings - (consumption - InefficiencyThreshold)
    ensures savings - (consumption - InefficiencyThreshold) <= 0.005 * Abs(powerUsage) + 0.005
  {
    HoursMeetThreshold(powerUsage, hours);
  }

  /**
   * Rounding the hours up can make the "savings" of a machine just over
   * the threshold negative: 300 kW for 1.668 h uses 500.4 kWh, the
   * recommended 1.67 h would use 501 kWh, so savings are -0.6 kWh and the
   * cost reduction is -0.06 USD.
   */
  lemma NegativeSavingsExample()
    ensures Analyze(MachineData("M", 300.0, 1.668)) == Inefficient(500.4, 1.67, -0.6, -0.06)
  {
    Round2OfHundredths(50040);
    assert RoundHalfEven(500.0 / 300.0 * 100.0) == 167 by {
      RoundHalfEvenUnique(500.0 / 300.0 * 100.0, 167);
    }
    Round2OfHundredths(-60);
    Round2OfHundredths(-6);
  }

  /** 100 kW for 8 h: 800 kWh, inefficient; 5 h recommended, 300 kWh and 30 USD saved. */
  lemma InefficientMachineExample()
    ensures Analyze(MachineData("M", 100.0, 8.0)) == Inefficient(800.0, 5.0, 300.0, 30.0)
  {
    Round2OfHundredths(80000);
    Round2OfHundredths(500);
    Round2OfHundredths(30000);
    Round2OfHundredths(3000);
  }

  /** 50 kW for 9 h: 450 kWh, efficient, no recommendation. */
  lemma EfficientMachineExample()
    ensures Analyze(MachineData("M", 50.0, 9.0)) == Efficient(450.0)
  {
    Round2OfHundredths(45000);
  }

  /** Exactly 500 kWh is still efficient; 500.01 kWh is inefficient. */
  lemma ThresholdIsStrict()
    ensures Analyze(MachineData("M", 100.0, 5.0)) == Efficient(500.0)
    ensures Analyze(MachineData("M", 100.0, 5.0001)) == Inefficient(500.01, 5.0, 0.01, 0.0)
  {
    Round2OfHundredths(50000);
    Round2OfHundredths(50001);
    Round2OfHundredths(500);
    Round2OfHundredths(1);
    assert RoundHalfEven(0.01 * 0.10 * 100.0) == 0 by {
      RoundHalfEvenUnique(0.01 * 0.10 * 100.0, 0);
    }
  }
}

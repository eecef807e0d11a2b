/**
 * The validation and calculation core of the energy optimizer: machine
 * records, the batch validators, the four rounded formulas, the
 * per-machine efficiency classification and the loop that produces one
 * report section per machine, in input order.
 */
module EnergyOptimizer {
  import opened Rounding

  /** Consumption above this many kWh marks a machine as inefficient. */
  const InefficiencyThreshold: real := 500.0

  /** Price of one kWh, in USD. */
  const ElectricityCost: real := 0.10

  /** One machine's input record. */
  datatype MachineData = MachineData(machineId: string, powerUsageKw: real, operationalHours: real)

  // ---------------------------------------------------------------------
  // Structure validation

  datatype FieldStatus = Present | Missing

  /** Summary of the shape of a batch of records. */
  datatype StructureReport = StructureReport(
    numMachines: nat,
    fieldsPerRecord: nat,
    machineId: FieldStatus,
    powerUsageKw: FieldStatus,
    operationalHours: FieldStatus)

  /**
   * The shape of a batch: its size, three fields per record, and every
   * field present (the record type guarantees it; no value is inspected).
   */
  function ValidateDataStructure(data: seq<MachineData>): (r: StructureReport)
    ensures r.numMachines == |data| && r.fieldsPerRecord == 3
    ensures r.machineId == Present && r.powerUsageKw == Present && r.operationalHours == Present
  {
    StructureReport(|data|, 3, Present, Present, Present)
  }

  // ---------------------------------------------------------------------
  // Type and value validation

  datatype Flag = Validated | NotValid

  /** Batch-wide validity of the two numeric fields. */
  datatype TypeReport = TypeReport(powerUsageKw: Flag, operationalHours: Flag)

  /** Every record of the batch draws a positive power. */
  predicate AllPowerPositive(data: seq<MachineData>)
  {
    forall i | 0 <= i < |data| :: data[i].powerUsageKw > 0.0
  }

  /** Every record of the batch runs a positive number of hours. */
  predicate AllHoursPositive(data: seq<MachineData>)
  {
    forall i | 0 <= i < |data| :: data[i].operationalHours > 0.0
  }

  /** One step of the validation loop: a non-positive value turns its flag to NotValid. */
  function CheckRecord(acc: TypeReport, m: MachineData): (r: TypeReport)
    ensures r.powerUsageKw == Validated <==> acc.powerUsageKw == Validated && m.powerUsageKw > 0.0
    ensures r.operationalHours == Validated <==> acc.operationalHours == Validated && m.operationalHours > 0.0
  {
    var afterPower := if m.powerUsageKw <= 0.0 then acc.(powerUsageKw := NotValid) else acc;
    if m.operationalHours <= 0.0 then afterPower.(operationalHours := NotValid) else afterPower
  }

  /**
   * The validation loop as a fold over the records, starting from both
   * flags Validated. Each flag ends Validated exactly when every record
   * has a positive value in its field.
   */
  function TypeChecks(data: seq<MachineData>): (r: TypeReport)
    ensures r.powerUsageKw == Validated <==> AllPowerPositive(data)
    ensures r.operationalHours == Validated <==> AllHoursPositive(data)
    decreases |data|
  {
    if data == [] then TypeReport(Validated, Validated)
    else
      var front := data[..|data| - 1];
      assert forall i | 0 <= i < |front| :: front[i] == data[i];
      CheckRecord(TypeChecks(front), data[|data| - 1])
  }

  /** Validates the values of a batch, one record after another. */
  method ValidateDataTypes(data: seq<MachineData>) returns (validation: TypeReport)
    ensures validation == TypeChecks(data)
    ensures validation.powerUsageKw == Validated <==> AllPowerPositive(data)
    ensures validation.operationalHours == Validated <==> AllHoursPositive(data)
  {
    validation := TypeReport(Validated, Validated);
    for i := 0 to |data|
      invariant validation == TypeChecks(data[..i])
    {
      var machine := data[i];
      if machine.powerUsageKw <= 0.0 {
        validation := validation.(powerUsageKw := NotValid);
      }
      if machine.operationalHours <= 0.0 {
        validation := validation.(operationalHours := NotValid);
      }
      assert data[..i + 1][..i] == data[..i];
    }
    assert data[..|data|] == data;
  }

  // ---------------------------------------------------------------------
  // Formulas

  datatype MathError = ZeroDivision

  datatype Result<T> = Success(value: T) | Failure(error: MathError)

  /** Energy used, in kWh, rounded to hundredths. */
  function EnergyConsumption(powerUsage: real, hours: real): (r: real)
    ensures -0.005 <= r - powerUsage * hours <= 0.005
    ensures IsHundredth(r)
  {
    Round2(powerUsage * hours)
  }

  /**
   * Hours at which the machine would use exactly the threshold, rounded
   * to hundredths; a power of zero is a division by zero.
   */
  function RecommendedHours(powerUsage: real): (r: Result<real>)
    ensures r.Failure? <==> powerUsage == 0.0
    ensures r.Success? ==> -0.005 <= r.value - InefficiencyThreshold / powerUsage <= 0.005
    ensures r.Success? ==> IsHundredth(r.value)
  {
    if powerUsage == 0.0 then Failure(ZeroDivision)
    else Success(Round2(InefficiencyThreshold / powerUsage))
  }

  /** kWh saved by running the recommended hours instead, rounded to hundredths. */
  function EnergySavings(currentConsumption: real, powerUsage: real, recommendedHours: real): (r: real)
    ensures -0.005 <= r - (currentConsumption - powerUsage * recommendedHours) <= 0.005
    ensures IsHundredth(r)
  {
    Round2(currentConsumption - powerUsage * recommendedHours)
  }

  /** USD saved with the given energy savings, rounded to hundredths. */
  function CostReduction(energySavings: real): (r: real)
    ensures -0.005 <= r - energySavings * ElectricityCost <= 0.005
    ensures IsHundredth(r)
  {
    Round2(energySavings * ElectricityCost)
  }

  // ---------------------------------------------------------------------
  // Classification

  /** The outcome for one machine; only an inefficient one gets a recommendation. */
  datatype Analysis =
    | Efficient(consumption: real)
    | Inefficient(consumption: real, recommendedHours: real, energySavings: real, costReduction: real)

  /** A machine over the threshold cannot have zero power: its division is safe. */
  lemma PowerNonZeroWhenInefficient(powerUsage: real, hours: real)
    requires EnergyConsumption(powerUsage, hours) > InefficiencyThreshold
    ensures powerUsage != 0.0
  {
  }

  /**
   * Classifies one machine by its rounded consumption. Only an inefficient
   * machine gets the three further metrics, each computed from the
   * previous rounded value.
   */
  function Analyze(m: MachineData): (r: Analysis)
    ensures r.consumption == EnergyConsumption(m.powerUsageKw, m.operationalHours)
    ensures r.Inefficient? <==> r.consumption > InefficiencyThreshold
    ensures r.Inefficient? ==>
      && m.powerUsageKw != 0.0
      && RecommendedHours(m.powerUsageKw) == Success(r.recommendedHours)
      && r.energySavings == EnergySavings(r.consumption, m.powerUsageKw, r.recommendedHours)
      && r.costReduction == CostReduction(r.energySavings)
  {
    var consumption := EnergyConsumption(m.powerUsageKw, m.operationalHours);
    if consumption > InefficiencyThreshold then
      PowerNonZeroWhenInefficient(m.powerUsageKw, m.operationalHours);
      match RecommendedHours(m.powerUsageKw)
      case Success(hours) =>
        var savings := EnergySavings(consumption, m.powerUsageKw, hours);
        Inefficient(consumption, hours, savings, CostReduction(savings))
      case Failure(_) =>
        assert false;
        Efficient(consumption)
    else
      Efficient(consumption)
  }

  // ---------------------------------------------------------------------
  // Report

  /** The values one machine's section of the report shows. */
  datatype MachineSection = MachineSection(
    machineId: string,
    powerUsageKw: real,
    operationalHours: real,
    analysis: Analysis)

  /** The values the report shows: both validations and one section per machine. */
  datatype Report = Report(
    structure: StructureReport,
    typeValidation: TypeReport,
    totalMachines: nat,
    sections: seq<MachineSection>)

  /**
   * Validates the batch and analyses every machine, producing exactly one
   * section per record, in input order. The analysis proceeds whatever
   * the validation found.
   */
  method GenerateReport(data: seq<MachineData>) returns (report: Report)
    ensures report.structure == ValidateDataStructure(data)
    ensures report.typeValidation == TypeChecks(data)
    ensures report.totalMachines == |data|
    ensures |report.sections| == |data|
    ensures forall i | 0 <= i < |data| ::
      report.sections[i]
      == MachineSection(data[i].machineId, data[i].powerUsageKw, data[i].operationalHours, Analyze(data[i]))
  {
    var validationData := ValidateDataStructure(data);
    var typeValidation := ValidateDataTypes(data);
    var sections: seq<MachineSection> := [];
    for i := 0 to |data|
      invariant |sections| == i
      invariant forall k | 0 <= k < i ::
        sections[k] == MachineSection(data[k].machineId, data[k].powerUsageKw, data[k].operationalHours, Analyze(data[k]))
    {
      var machine := data[i];
      var analysis := Analyze(machine);
      sections := sections + [MachineSection(machine.machineId, machine.powerUsageKw, machine.operationalHours, analysis)];
    }
    report := Report(validationData, typeValidation, |data|, sections);
  }
}

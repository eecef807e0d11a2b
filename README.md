# Energy optimizer: validation and efficiency analysis

This project models the decision and arithmetic core of `EnergyOptimizer`. The optimizer takes a batch of machine records. Each record holds an identifier, a power draw in kW and a number of operational hours. The Dafny model covers:

- the two batch validators;
- the four formulas that compute consumption, recommended hours, energy savings and cost reduction;
- the per-machine classification into efficient and inefficient;
- the report loop, which produces one section per machine, in input order.

Three modules make up the model:

- `Rounding` (Rounding.dfy) models Python's `round(x, 2)` on exact values. This is `Round2`: it rounds to the nearest hundredth, and a tie goes to the even number of hundredths.
- `EnergyOptimizer` (EnergyOptimizer.dfy) holds the model itself:
  - the constants `InefficiencyThreshold` (500 kWh) and `ElectricityCost` (0.10 USD per kWh);
  - the `MachineData` record;
  - the validators: `ValidateDataStructure` is a function. `ValidateDataTypes` is a method with a loop, proved against the fold `TypeChecks`;
  - the formulas;
  - `Analyze`, the per-record branch of the report;
  - `GenerateReport`, the report loop as a method.
- `EnergyOptimizerProperties` (EnergyOptimizerProperties.dfy) holds lemmas that relate several calls, plus concrete scenarios.

Numbers are exact `real`s. Each of the four formulas rounds its own result with `Round2`. Each formula takes the previous already-rounded value as its input, as the source does.

The source divides by the power at `EnergyOptimizer-AI.py:51`, and Python raises `ZeroDivisionError` when the power is zero. The model returns `Failure(ZeroDivision)` in that case. Only a zero power raises. A negative power goes through the division and yields negative hours, and the model does the same. `PowerNonZeroWhenInefficient` proves that the zero case cannot arise inside the report loop.

The savings of an inefficient machine can be negative. Recommended hours are rounded to the nearest hundredth, and that can round them up. `NegativeSavingsExample` shows a case: 300 kW for 1.668 h gives 500.4 kWh, so the machine is inefficient. The recommended 1.67 h would use 501 kWh, so the savings are -0.6 kWh and the cost reduction is -0.06 USD. The model keeps the code's behaviour. `SavingsApproximateExcess` bounds how far the savings can fall below the excess over the threshold.

## Model

| member | source | states |
|---|---|---|
| Rounding.RoundHalfEven | EnergyOptimizer-AI.py:47 | the result is an integer within 0.5 of the input; at a tie (distance exactly 0.5) it is the even neighbour |
| Rounding.RoundHalfEvenUnique | EnergyOptimizer-AI.py:47 | any integer that meets those two conditions is RoundHalfEven's result, so the rounding rule is fully determined |
| Rounding.Round2 | EnergyOptimizer-AI.py:47 | `round(x, 2)`: the result is a whole number of hundredths within 0.005 of x; at a tie (exactly 0.005 away) its number of hundredths is even |
| Rounding.Round2OfHundredths | EnergyOptimizer-AI.py:47 | a value that is already a whole number of hundredths comes back unchanged |
| Rounding.Round2Idempotent | EnergyOptimizer-AI.py:47 | rounding an already rounded value changes nothing |
| Rounding.Round2Monotone | EnergyOptimizer-AI.py:47 | rounding preserves order: x <= y implies Round2(x) <= Round2(y) |
| Rounding.Round2AboveWhole | EnergyOptimizer-AI.py:47 | the rounded value exceeds a whole number t exactly when x exceeds t + 0.005 (the tie at t + 0.005 rounds down to the even t) |
| EnergyOptimizer.ValidateDataStructure | EnergyOptimizer-AI.py:18-28 | the summary reports the batch size, 3 fields per record, and all three fields present |
| EnergyOptimizer.CheckRecord | EnergyOptimizer-AI.py:37-41 | after one record, a flag is Validated iff it was Validated before and that record's field is positive; each flag is updated independently |
| EnergyOptimizer.TypeChecks | EnergyOptimizer-AI.py:32-43 | the validation loop as a fold: power is Validated iff every record has power > 0; hours is Validated iff every record has hours > 0 |
| EnergyOptimizer.ValidateDataTypes | EnergyOptimizer-AI.py:30-43 | the loop over the records returns the fold's result, so each flag is Validated iff all records have a positive value in that field |
| EnergyOptimizer.EnergyConsumption | EnergyOptimizer-AI.py:45-47 | the consumption is a whole number of hundredths of a kWh within 0.005 of power times hours |
| EnergyOptimizer.RecommendedHours | EnergyOptimizer-AI.py:49-51 | fails with ZeroDivision exactly when power is 0; otherwise returns a whole number of hundredths within 0.005 of 500 / power |
| EnergyOptimizer.EnergySavings | EnergyOptimizer-AI.py:53-56 | the savings are a whole number of hundredths within 0.005 of consumption minus power times recommended hours |
| EnergyOptimizer.CostReduction | EnergyOptimizer-AI.py:58-60 | the cost reduction is a whole number of hundredths within 0.005 of savings times 0.10 |
| EnergyOptimizer.PowerNonZeroWhenInefficient | EnergyOptimizer-AI.py:128-129 | if the consumption is above 500, the power is not 0, so the division at line 51 cannot fail inside the report loop |
| EnergyOptimizer.Analyze | EnergyOptimizer-AI.py:110-161 | the consumption is always computed; the result is Inefficient iff the consumption is > 500 (strict); only then are hours, savings and cost computed, each from the previous rounded value |
| EnergyOptimizer.GenerateReport | EnergyOptimizer-AI.py:62-169 | the report carries both validations and the machine count; it has exactly one section per input record, in input order, and section i holds record i's identifier, inputs and `Analyze` result, whatever the validation found |
| EnergyOptimizerProperties.StructureIgnoresValues | EnergyOptimizer-AI.py:18-28 | two batches of equal size get the same structure summary, whatever their values |
| EnergyOptimizerProperties.FlagsAreIndependent | EnergyOptimizer-AI.py:37-41 | the power flag depends only on the power values, and the hours flag only on the hours |
| EnergyOptimizerProperties.OneBadRecordDecides | EnergyOptimizer-AI.py:37-41 | one record with a non-positive value anywhere makes its field NotValid for the whole batch |
| EnergyOptimizerProperties.NotValidIsFinal | EnergyOptimizer-AI.py:37-43 | once a flag is NotValid for a prefix of the batch, it stays NotValid whatever records follow |
| EnergyOptimizerProperties.OrderIrrelevant | EnergyOptimizer-AI.py:37-43 | two batches that hold the same records in any order get the same validation result |
| EnergyOptimizerProperties.NegativePowerBatch | EnergyOptimizer-AI.py:37-41 | a batch with one record of -5 kW gets power NotValid and hours Validated |
| EnergyOptimizerProperties.ConsumptionSymmetric | EnergyOptimizer-AI.py:45-47 | consumption is symmetric in power and hours |
| EnergyOptimizerProperties.ConsumptionAboveThreshold | EnergyOptimizer-AI.py:128 | the rounded consumption is above 500 iff the raw product power times hours is above 500.005 |
| EnergyOptimizerProperties.InefficientIffRawAbove | EnergyOptimizer-AI.py:128 | a machine is classified Inefficient iff power times hours is above 500.005, so a raw value in (500, 500.005] is still Efficient |
| EnergyOptimizerProperties.ClassifiedByConsumption | EnergyOptimizer-AI.py:128 | two machines with the same rounded consumption get the same classification: it is determined by consumption alone |
| EnergyOptimizerProperties.HoursMeetThreshold | EnergyOptimizer-AI.py:49-51 | when the recommended hours exist, power times those hours is within 0.005 * abs(power) of 500 kWh |
| EnergyOptimizerProperties.SavingsNearExcess | EnergyOptimizer-AI.py:53-56 | savings computed from the recommended hours are within 0.005 * abs(power) + 0.005 of consumption - 500 |
| EnergyOptimizerProperties.SavingsApproximateExcess | EnergyOptimizer-AI.py:129-133 | an inefficient machine's savings are within 0.005 * abs(power) + 0.005 of its consumption minus 500 |
| EnergyOptimizerProperties.NegativeSavingsExample | EnergyOptimizer-AI.py:128-133 | 300 kW for 1.668 h gives Inefficient with 500.4 kWh, 1.67 h, savings -0.6 kWh and cost -0.06 USD: savings can be negative |
| EnergyOptimizerProperties.InefficientMachineExample | EnergyOptimizer-AI.py:128-133 | 100 kW for 8 h gives Inefficient with 800 kWh, 5 h, savings 300 kWh and cost 30 USD |
| EnergyOptimizerProperties.EfficientMachineExample | EnergyOptimizer-AI.py:151-161 | 50 kW for 9 h gives Efficient with 450 kWh and no recommendation |
| EnergyOptimizerProperties.ThresholdIsStrict | EnergyOptimizer-AI.py:128 | exactly 500 kWh is Efficient; 500.01 kWh is Inefficient, with 5 h, savings 0.01 kWh and cost 0 USD |

## Left out

- `parse_csv_data` and `parse_json_data` (`EnergyOptimizer-AI.py:171-198`) are left out. They are thin wrappers over Python's `csv` and `json` libraries and `float()`. The model starts from records that are already typed.
- The text of the report is left out: its Markdown and LaTeX lines and the fixed "Data validation is successful!" line (`EnergyOptimizer-AI.py:67-107`, `114-167`). `GenerateReport` returns only the values those lines show.
- The `__main__` demo data and its `print` calls (`EnergyOptimizer-AI.py:200-248`) are I/O and are left out.
- The `isinstance` tests (`EnergyOptimizer-AI.py:38`, `40`) are left out. In the typed model every field is already a number, so only the `<= 0` test remains.
- IEEE-754 floating point is left out. `Round2` works on exact reals, with Python's documented half-to-even rule for ties. A binary float can fall just below or above a decimal tie, and the model does not reproduce that.
- NaN and infinity are left out, because a `real` has neither. In the source a NaN power passes the value check (`nan <= 0` is false at `EnergyOptimizer-AI.py:38`), and the same machine is then classified Efficient (`nan > 500` is false at `EnergyOptimizer-AI.py:128`). The model's "Validated iff every value is positive" cannot show either case.

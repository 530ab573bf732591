# Fuel ledger entry calculator

A Dafny model of the core of a small fleet fuel-tracking app (`app.py`).
For each vehicle, the app keeps a ledger: an ordered list of rows, one per refuelling event.
When the user presses the add button ("Ekle"), the app reads three non-negative integers:

- the odometer reading (`baslangickm`),
- the fuel dispensed (`mazot`),
- the fuel delivered into the tank (`depoyaalinanmazot`).

It also reads a free-text date (`tarih`).
From these and the rows already stored, it derives a full new row and appends it.
The derived columns are:

- `katedilenyol`: the distance since the previous row. It is 0 for the first row. It may be negative, and no error is raised.
- `toplamyol`: the running distance. It is the sum of the stored distance column plus the new distance.
- `toplammazot`: the running fuel. It is the sum of the stored fuel column plus the new fuel.
- `ortalama100`: `(100 / katedilenyol) * mazot`, or 0 when the distance is not positive.
- `kumulatif100`: `(100 / toplamyol) * mazot`, or 0 when the running distance is not positive. It uses this row's fuel, not the running fuel.
- `depomazot`: the previous row's `depodakalanmazot` (0 for the first row) plus the delivery, minus the fuel dispensed.
- `depodakalanmazot`: equal to `depomazot`.

Files:

- `entry.dfy` (module `FuelEntry`) holds the row datatype, the column sums, the guarded per-100 ratio and `ComputeEntry`. `ComputeEntry` is the pure derivation of the new row.
- `history.dfy` (module `FuelHistory`) holds the two descriptions of a consistent ledger and the lemmas connecting them.
  - `WellFormed` says every row is what `ComputeEntry` derives from the rows before it.
  - `Chained` is an independent description that relates each row to its predecessor only.
  - `Replay` builds the ledger produced from empty by a sequence of adds.
  - The lemmas prove that these agree. They also prove the prefix-sum, odometer and tank-balance consequences.
- `ledger.dfy` (module `FuelLedger`) holds the `Ledger` class. Its `rows` field is reassigned by `Add`, as the app reassigns its data frame.

Field names follow the spreadsheet columns in camel case (`katedilenYol` is `katedilenyol`).
Odometer and fuel amounts are integers, because the input widgets are integer inputs with minimum 0.
The two ratios are exact `real` values.

The name `depomazot` suggests "tank after delivery", but the code (app.py:106-107) already subtracts the dispensed fuel in `depomazot`.
It then copies that value into `depodakalanmazot`.
The model follows the code, so `SecondRowExample` has `depoMazot == 10`, not 50.

## Model

| member | source | states |
|---|---|---|
| FuelEntry.Per100 | app.py:92-100 | the ratio times a positive denominator is 100 times the fuel; it is 0 when the denominator is zero or negative; it is never negative for non-negative fuel; the division is only reached with a positive denominator |
| FuelEntry.ComputeEntry | app.py:80-122 | the typed-in date, odometer, fuel and delivery appear in the row unchanged; first row: distance 0, running distance 0, tank = delivery - fuel; later rows: distance is the odometer difference from the last row, negative allowed; running totals are the prior column sums plus the new row; both ratios are the guarded per-100 values, with `kumulatif100` using this row's fuel; tank after = previous remaining + delivery - fuel, and remaining = tank after |
| FuelHistory.AppendPreservesWellFormed | app.py:110-125 | appending the derived row to a well-formed ledger gives a well-formed ledger |
| FuelHistory.WellFormedPrefix | app.py:125 | every prefix of a well-formed ledger is well formed, since a row depends on earlier rows only |
| FuelHistory.ReplayWellFormed | app.py:78-125 | a ledger built from empty by repeated adds is well formed, has one row per add, and its raw columns are the typed-in values in order |
| FuelHistory.RecomputeIdempotent | app.py:80-122 | recomputing a well-formed ledger from its raw columns, starting at the first row, gives back the same ledger |
| FuelHistory.WellFormedIffReplayed | app.py:80-125 | a ledger is well formed exactly when it equals the replay of its own raw columns |
| FuelHistory.Per100Unique | app.py:92-100 | any value meeting the ratio's description (times denominator = 100 times fuel, or 0 when not positive) is the guarded ratio |
| FuelHistory.DerivedRatios | app.py:92-100 | a derived row's two ratios satisfy their description |
| FuelHistory.WellFormedStart | app.py:84-86 | the first row of a well-formed ledger has distance 0, running distance 0, running fuel = its own fuel, and tank = delivery - fuel |
| FuelHistory.WellFormedStep | app.py:80-107 | in a well-formed ledger each later row follows from its predecessor alone: odometer difference, running totals extended by one row, tank chained from the previous remaining value |
| FuelHistory.ChainedPrefixSums | app.py:89-103 | in a chained ledger the running totals are the prefix sums of the distance and fuel columns |
| FuelHistory.ChainedStep | app.py:80-122 | in a chained ledger each row is exactly the row the add button derives from the rows before it |
| FuelHistory.WellFormedIffChained | app.py:80-122 | the add button's recurrence and the row-by-row description are equivalent, in both directions |
| FuelHistory.PrefixSums | app.py:89-103 | in a well-formed ledger each row's running distance and running fuel are the column sums up to and including that row |
| FuelHistory.DistanceFromFirstRow | app.py:80-89 | in a well-formed ledger the running distance of a row is its odometer reading minus the first row's |
| FuelHistory.TankBalance | app.py:83-107 | in a well-formed ledger the remaining tank after a row is the total delivered minus the total dispensed, counted up to that row |
| FuelHistory.CumulativeUsesRowFuel | app.py:97-100 | two rows with the same running distance and the same own fuel get the same cumulative ratio, whatever was dispensed before them |
| FuelHistory.FirstRowExample | app.py:84-122 | empty ledger, odometer 1000, fuel 0, delivery 50: distance 0, running distance 0, ratios 0, tank 50 |
| FuelHistory.SecondRowExample | app.py:80-122 | after a row at 1000 with 50 left, odometer 1400, fuel 40, delivery 0: distance 400, both ratios 10, tank 10 |
| FuelLedger.Ledger.constructor | app.py:66-69 | the ledger holds the stored rows, or no rows (a well-formed ledger) when nothing is stored |
| FuelLedger.Ledger.Add | app.py:78-125 | the rows become the old rows plus exactly one derived row; earlier rows are unchanged; the last row carries the typed-in values; well-formedness is preserved |
| FuelLedger.TwoAdds | app.py:78-125 | an empty ledger after two adds holds the replay of the two inputs and is well formed |

## Left out

- The user interface (title, input widgets, buttons, selector, table display; app.py:7, 23, 26, 36, 57, 72-78, 129-133) is not modelled. It is presentation only. The three numeric inputs become `nat` parameters, because their widgets enforce a minimum of 0.
- Spreadsheet persistence is not modelled (reading and writing the vehicle's file, the file-exists checks and path resolution; app.py:10-17, 61-69, 128). It is file I/O. The stored rows are an input of the `Ledger` constructor.
- The global remaining-fuel cell (app.py:14-33) is not modelled. It is file-backed I/O and never feeds the row derivation. Its default when no file exists is 0.
- The plate-to-file table (app.py:39-54) is not modelled. It is static configuration.
- FuelEntry.Per100: models exact real arithmetic, not the floating-point rounding of the source.
- FuelEntry.ComputeEntry: assumes well-formed stored rows. Missing cells or non-numeric values in an externally edited file would change the column sums and the last-row lookup.
- Integers are unbounded. Fixed-width overflow of the spreadsheet's numeric columns is not modelled.
- The date is free text that is carried into the row. Nothing in the code validates it.
- A shared per-vehicle fuel pool as the tank source, row deletion with recomputation, bulk import and export do not exist in `app.py`. They are not modelled. `RecomputeIdempotent` only states that recomputing an unchanged ledger changes nothing.

/** One row of a vehicle's fuel ledger and the derivation of a new row
    from the rows already recorded and the three numbers typed in. */
module FuelEntry {

  /** The inputs of the form: a free-text date and three non-negative
      integers (odometer reading, fuel dispensed, fuel put into the tank). */
  datatype Raw = Raw(tarih: string, baslangicKm: nat, mazot: nat, depoyaAlinanMazot: nat)

  /** A ledger row, one field per spreadsheet column, in column order. */
  datatype Entry = Entry(
    tarih: string,
    baslangicKm: nat,          // odometer reading
    mazot: nat,                // fuel dispensed
    katedilenYol: int,         // distance since the previous row (may be negative)
    toplamYol: int,            // running distance total
    toplamMazot: int,          // running fuel total
    ortalama100: real,         // fuel per 100 distance units over this interval
    kumulatif100: real,        // this row's fuel per 100 units of the running distance
    depoMazot: int,            // tank after this row's delivery and withdrawal
    depoyaAlinanMazot: nat,    // fuel delivered to the tank
    depodaKalanMazot: int)     // tank remaining, carried to the next row

  /** The raw inputs a row was made from. */
  function RawOf(e: Entry): Raw {
    Raw(e.tarih, e.baslangicKm, e.mazot, e.depoyaAlinanMazot)
  }

  function Last(rows: seq<Entry>): Entry
    requires rows != []
  {
    rows[|rows| - 1]
  }

  /** Sum of the distance column. */
  function TotalDistance(rows: seq<Entry>): int {
    if rows == [] then 0 else TotalDistance(rows[..|rows| - 1]) + Last(rows).katedilenYol
  }

  /** Sum of the fuel-dispensed column. */
  function TotalFuel(rows: seq<Entry>): int {
    if rows == [] then 0 else TotalFuel(rows[..|rows| - 1]) + Last(rows).mazot
  }

  /** Sum of the fuel-delivered column. */
  function TotalDelivered(rows: seq<Entry>): int {
    if rows == [] then 0 else TotalDelivered(rows[..|rows| - 1]) + Last(rows).depoyaAlinanMazot
  }

  /** Fuel per 100 distance units: `(100 / distance) * fuel`, and 0 when the
      distance is zero or negative, so that no division by zero happens. */
  function Per100(fuel: int, distance: int): (r: real)
    ensures distance > 0 ==> r * (distance as real) == 100.0 * (fuel as real)
    ensures distance <= 0 ==> r == 0.0
    ensures fuel >= 0 ==> r >= 0.0
  {
    if distance > 0 then (100.0 / distance as real) * fuel as real else 0.0
  }

  /** The tank value the new row starts from: the previous row's remaining
      fuel, or 0 when the ledger is empty. */
  function PreviousTank(prior: seq<Entry>): int {
    if prior == [] then 0 else Last(prior).depodaKalanMazot
  }

  /** The row appended when the user presses the add button with `raw`
      typed in and `prior` already in the ledger. */
  function ComputeEntry(prior: seq<Entry>, raw: Raw): (e: Entry)
    // the typed-in values are carried into the row unchanged
    ensures RawOf(e) == raw
    // first row: no distance driven, tank starts from 0
    ensures prior == [] ==> e.katedilenYol == 0 && e.toplamYol == 0
    ensures prior == [] ==> e.depoMazot == raw.depoyaAlinanMazot - raw.mazot
    // later rows: distance is the odometer difference, negative allowed
    ensures prior != [] ==> e.katedilenYol + Last(prior).baslangicKm == raw.baslangicKm
    // running totals: the column sums over the prior rows plus the new row
    ensures e.toplamYol == TotalDistance(prior) + e.katedilenYol
    ensures e.toplamMazot == TotalFuel(prior) + raw.mazot
    // the ratios, guarded against zero and negative denominators
    ensures e.ortalama100 == Per100(raw.mazot, e.katedilenYol)
    ensures e.kumulatif100 == Per100(raw.mazot, e.toplamYol)
    // tank bookkeeping: what was left, plus what came in, minus what went out
    ensures e.depoMazot + raw.mazot == PreviousTank(prior) + raw.depoyaAlinanMazot
    ensures e.depodaKalanMazot == e.depoMazot
  {
    var katedilen := if prior != [] then raw.baslangicKm - Last(prior).baslangicKm else 0;
    var toplamYol := TotalDistance(prior) + katedilen;
    var depo := PreviousTank(prior) + raw.depoyaAlinanMazot - raw.mazot;
    var e := Entry(raw.tarih, raw.baslangicKm, raw.mazot, katedilen, toplamYol,
                   TotalFuel(prior) + raw.mazot, Per100(raw.mazot, katedilen),
                   Per100(raw.mazot, toplamYol), depo, raw.depoyaAlinanMazot, depo);
    e
  }
}

/** What a ledger looks like when every row was appended by the add
    button: the recurrence, an independent row-by-row description of it,
    and the prefix-sum and tank-balance facts that follow. */
module FuelHistory {
  import opened FuelEntry

  /** Every row is exactly the row the add button derives from the rows
      before it and the row's own typed-in values. */
  predicate WellFormed(rows: seq<Entry>) {
    forall i :: 0 <= i < |rows| ==> Derived(rows, i)
  }

  /** Row `i` is what the add button derives from the rows before it. */
  predicate Derived(rows: seq<Entry>, i: nat)
    requires i < |rows|
  {
    rows[i] == ComputeEntry(rows[..i], RawOf(rows[i]))
  }

  /** The two ratios, described by what they mean rather than how they
      are computed: ratio * denominator == 100 * fuel, or 0 when the
      denominator is not positive. */
  predicate RatiosHold(e: Entry) {
    (e.katedilenYol > 0 ==> e.ortalama100 * (e.katedilenYol as real) == 100.0 * (e.mazot as real)) &&
    (e.katedilenYol <= 0 ==> e.ortalama100 == 0.0) &&
    (e.toplamYol > 0 ==> e.kumulatif100 * (e.toplamYol as real) == 100.0 * (e.mazot as real)) &&
    (e.toplamYol <= 0 ==> e.kumulatif100 == 0.0)
  }

  /** The first row of a ledger: nothing driven yet, tank starts from 0. */
  predicate Starts(e: Entry) {
    e.katedilenYol == 0 && e.toplamYol == 0 && e.toplamMazot == e.mazot &&
    RatiosHold(e) &&
    e.depoMazot == e.depoyaAlinanMazot - e.mazot && e.depodaKalanMazot == e.depoMazot
  }

  /** A later row, described from its predecessor alone. */
  predicate Follows(prev: Entry, e: Entry) {
    e.katedilenYol == e.baslangicKm - prev.baslangicKm &&
    e.toplamYol == prev.toplamYol + e.katedilenYol &&
    e.toplamMazot == prev.toplamMazot + e.mazot &&
    RatiosHold(e) &&
    e.depoMazot == prev.depodaKalanMazot + e.depoyaAlinanMazot - e.mazot &&
    e.depodaKalanMazot == e.depoMazot
  }

  /** Reference definition of a consistent ledger, one neighbouring pair at a time. */
  predicate Chained(rows: seq<Entry>) {
    (rows != [] ==> Starts(rows[0])) &&
    forall i :: 0 < i < |rows| ==> Linked(rows, i)
  }

  /** Row `i` follows from row `i - 1`. */
  predicate Linked(rows: seq<Entry>, i: nat)
    requires 0 < i < |rows|
  {
    Follows(rows[i - 1], rows[i])
  }

  /** The ledger obtained from an empty one by pressing the add button once
      per element of `raws`, in order. */
  function Replay(raws: seq<Raw>): seq<Entry> {
    if raws == [] then []
    else
      var prior := Replay(raws[..|raws| - 1]);
      prior + [ComputeEntry(prior, raws[|raws| - 1])]
  }

  /** The typed-in values of every row, in order. */
  function Raws(rows: seq<Entry>): (r: seq<Raw>)
    ensures |r| == |rows|
    ensures forall i :: 0 <= i < |rows| ==> r[i] == RawOf(rows[i])
  {
    if rows == [] then [] else Raws(rows[..|rows| - 1]) + [RawOf(Last(rows))]
  }

  // ---------------------------------------------------------------------
  // Appending keeps a ledger well formed

  lemma AppendPreservesWellFormed(rows: seq<Entry>, raw: Raw)
    requires WellFormed(rows)
    ensures WellFormed(rows + [ComputeEntry(rows, raw)])
  {
    var rows' := rows + [ComputeEntry(rows, raw)];
    forall i | 0 <= i < |rows'|
      ensures Derived(rows', i)
    {
      if i < |rows| {
        assert Derived(rows, i);
        assert rows'[..i] == rows[..i];
      } else {
        assert rows'[..i] == rows;
      }
    }
  }

  lemma WellFormedPrefix(rows: seq<Entry>, k: nat)
    requires WellFormed(rows) && k <= |rows|
    ensures WellFormed(rows[..k])
  {
    forall i | 0 <= i < k
      ensures Derived(rows[..k], i)
    {
      assert Derived(rows, i);
      assert rows[..k][..i] == rows[..i];
    }
  }

  /** A ledger built from empty by repeated adds is well formed, has one
      row per add, and gives back the typed-in values in order. */
  lemma {:induction false} ReplayWellFormed(raws: seq<Raw>)
    ensures WellFormed(Replay(raws))
    ensures |Replay(raws)| == |raws|
    ensures Raws(Replay(raws)) == raws
  {
    if raws != [] {
      var n := |raws| - 1;
      var prior := Replay(raws[..n]);
      ReplayWellFormed(raws[..n]);
      AppendPreservesWellFormed(prior, raws[n]);
      var rows := Replay(raws);
      assert rows[..n] == prior;
      assert raws == raws[..n] + [raws[n]];
    }
  }

  /** Replaying the typed-in values of a well-formed ledger gives the
      same ledger back: its derived columns are determined by the raw
      columns, and recomputing them from the first row changes nothing. */
  lemma {:induction false} RecomputeIdempotent(rows: seq<Entry>)
    requires WellFormed(rows)
    ensures Replay(Raws(rows)) == rows
  {
    if rows != [] {
      var n := |rows| - 1;
      WellFormedPrefix(rows, n);
      RecomputeIdempotent(rows[..n]);
      var raws := Raws(rows);
      assert raws[..n] == Raws(rows[..n]);
      assert Derived(rows, n);
      assert rows == rows[..n] + [rows[n]];
    }
  }

  /** Well-formed ledgers are exactly the ones some sequence of adds produces. */
  lemma WellFormedIffReplayed(rows: seq<Entry>)
    ensures WellFormed(rows) <==> rows == Replay(Raws(rows))
  {
    if WellFormed(rows) {
      RecomputeIdempotent(rows);
    }
    if rows == Replay(Raws(rows)) {
      ReplayWellFormed(Raws(rows));
    }
  }

  // ---------------------------------------------------------------------
  // The recurrence and its row-by-row reference agree

  /** The guarded ratio is the only value meeting its description. */
  lemma Per100Unique(x: real, fuel: int, distance: int)
    requires distance > 0 ==> x * (distance as real) == 100.0 * (fuel as real)
    requires distance <= 0 ==> x == 0.0
    ensures x == Per100(fuel, distance)
  {
    if distance > 0 {
      var d := distance as real;
      var p := Per100(fuel, distance);
      assert x * d == p * d;
      assert (x - p) * d == 0.0;
    }
  }

  lemma DerivedRatios(rows: seq<Entry>, i: nat)
    requires i < |rows| && Derived(rows, i)
    ensures RatiosHold(rows[i])
  {
  }

  lemma WellFormedStart(rows: seq<Entry>)
    requires WellFormed(rows) && rows != []
    ensures Starts(rows[0])
  {
    assert Derived(rows, 0);
    assert rows[..0] == [];
  }

  lemma WellFormedStep(rows: seq<Entry>, i: nat)
    requires WellFormed(rows) && 0 < i < |rows|
    ensures Follows(rows[i - 1], rows[i])
  {
    var prior := rows[..i];
    assert Derived(rows, i);
    assert Derived(rows, i - 1);
    DerivedRatios(rows, i);
    assert Last(prior) == rows[i - 1];
    assert prior[..i - 1] == rows[..i - 1];
    assert TotalDistance(prior) == TotalDistance(rows[..i - 1]) + rows[i - 1].katedilenYol;
    assert TotalFuel(prior) == TotalFuel(rows[..i - 1]) + rows[i - 1].mazot;
  }

  lemma {:induction false} ChainedPrefixSums(rows: seq<Entry>, i: nat)
    requires Chained(rows) && i < |rows|
    ensures rows[i].toplamYol == TotalDistance(rows[..i + 1])
    ensures rows[i].toplamMazot == TotalFuel(rows[..i + 1])
  {
    assert rows[..i + 1][..i] == rows[..i];
    if i == 0 {
      assert rows[..0] == [];
    } else {
      ChainedPrefixSums(rows, i - 1);
      assert Linked(rows, i);
    }
  }

  lemma ChainedStep(rows: seq<Entry>, i: nat)
    requires Chained(rows) && i < |rows|
    ensures Derived(rows, i)
  {
    var e := rows[i];
    var c := ComputeEntry(rows[..i], RawOf(e));
    if i == 0 {
      assert rows[..i] == [];
      assert Starts(e);
    } else {
      assert Linked(rows, i);
      assert Last(rows[..i]) == rows[i - 1];
      ChainedPrefixSums(rows, i - 1);
    }
    assert c.katedilenYol == e.katedilenYol;
    assert c.toplamYol == e.toplamYol;
    Per100Unique(e.ortalama100, e.mazot, e.katedilenYol);
    Per100Unique(e.kumulatif100, e.mazot, e.toplamYol);
  }

  /** The recurrence that the add button maintains is the same thing as
      the row-by-row description, in both directions. */
  lemma WellFormedIffChained(rows: seq<Entry>)
    ensures WellFormed(rows) <==> Chained(rows)
  {
    if WellFormed(rows) {
      if rows != [] {
        WellFormedStart(rows);
      }
      forall i | 0 < i < |rows| ensures Linked(rows, i) {
        WellFormedStep(rows, i);
      }
    }
    if Chained(rows) {
      forall i | 0 <= i < |rows| ensures Derived(rows, i) {
        ChainedStep(rows, i);
      }
    }
  }

  // ---------------------------------------------------------------------
  // What a well-formed ledger promises about its columns

  /** Each row's running totals are the prefix sums of the distance and
      fuel columns up to and including that row. */
  lemma PrefixSums(rows: seq<Entry>, i: nat)
    requires WellFormed(rows) && i < |rows|
    ensures rows[i].toplamYol == TotalDistance(rows[..i + 1])
    ensures rows[i].toplamMazot == TotalFuel(rows[..i + 1])
  {
    assert Derived(rows, i);
    assert rows[..i + 1][..i] == rows[..i];
  }

  /** The running distance is how far the odometer has moved since the
      first row. */
  lemma {:induction false} DistanceFromFirstRow(rows: seq<Entry>, i: nat)
    requires WellFormed(rows) && i < |rows|
    ensures rows[i].toplamYol == rows[i].baslangicKm - rows[0].baslangicKm
  {
    if i == 0 {
      WellFormedStart(rows);
    } else {
      DistanceFromFirstRow(rows, i - 1);
      WellFormedStep(rows, i);
    }
  }

  /** The fuel left in the tank after a row is everything delivered minus
      everything dispensed, counted over the ledger up to that row. */
  lemma {:induction false} TankBalance(rows: seq<Entry>, i: nat)
    requires WellFormed(rows) && i < |rows|
    ensures rows[i].depodaKalanMazot == TotalDelivered(rows[..i + 1]) - TotalFuel(rows[..i + 1])
  {
    assert rows[..i + 1][..i] == rows[..i];
    if i == 0 {
      WellFormedStart(rows);
      assert rows[..0] == [];
    } else {
      TankBalance(rows, i - 1);
      WellFormedStep(rows, i);
    }
  }

  /** The cumulative ratio of a row is computed from that row's own fuel,
      not from the running fuel total: two rows with the same running
      distance and the same dispensed amount get the same ratio whatever
      was dispensed before them. */
  lemma CumulativeUsesRowFuel(rows: seq<Entry>, i: nat, j: nat)
    requires WellFormed(rows) && i < |rows| && j < |rows|
    requires rows[i].toplamYol == rows[j].toplamYol && rows[i].mazot == rows[j].mazot
    ensures rows[i].kumulatif100 == rows[j].kumulatif100
  {
    assert Derived(rows, i);
    assert Derived(rows, j);
  }

  // ---------------------------------------------------------------------
  // Two worked examples

  /** Empty ledger; 1000 on the odometer, nothing dispensed, 50 delivered. */
  lemma FirstRowExample()
    ensures ComputeEntry([], Raw("01.01", 1000, 0, 50))
         == Entry("01.01", 1000, 0, 0, 0, 0, 0.0, 0.0, 50, 50, 50)
  {
  }

  /** One prior row at 1000 with 50 left; 1400 on the odometer, 40
      dispensed, nothing delivered: 400 driven, 10 per 100, 10 left. */
  lemma SecondRowExample(first: Entry, tarih: string)
    requires first.baslangicKm == 1000 && first.depodaKalanMazot == 50
    requires first.katedilenYol == 0 && first.mazot == 0
    ensures ComputeEntry([first], Raw(tarih, 1400, 40, 0))
         == Entry(tarih, 1400, 40, 400, 400, 40, 10.0, 10.0, 10, 0, 10)
  {
    assert [first][..0] == [];
    assert TotalDistance([first]) == 0;
    assert TotalFuel([first]) == 0;
  }
}

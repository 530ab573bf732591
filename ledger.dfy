/** The ledger of the selected vehicle as the add button updates it. */
module FuelLedger {
  import opened FuelEntry
  import opened FuelHistory

  datatype Option<T> = None | Some(value: T)

  class Ledger {
    /** The rows, oldest first; the add button replaces this with a
        one-row-longer sequence. */
    var rows: seq<Entry>

    /** Opening a vehicle's ledger: the rows stored for it, or no rows when
        nothing has been stored yet. A fresh ledger is trivially well formed. */
    constructor (stored: Option<seq<Entry>>)
      ensures stored.Some? ==> rows == stored.value
      ensures stored.None? ==> rows == [] && WellFormed(rows)
    {
      rows := if stored.Some? then stored.value else [];
    }

    /** Pressing the add button: derive the new row from the rows already
        present and append it. Earlier rows stay as they were, and a well
        formed ledger stays well formed. */
    method Add(raw: Raw)
      modifies this
      ensures rows == old(rows) + [ComputeEntry(old(rows), raw)]
      ensures |rows| == |old(rows)| + 1 && rows[..|old(rows)|] == old(rows)
      ensures RawOf(rows[|rows| - 1]) == raw
      ensures WellFormed(old(rows)) ==> WellFormed(rows)
    {
      ghost var before := rows;
      var e := ComputeEntry(rows, raw);
      rows := rows + [e];
      assert rows[..|before|] == before;
      if WellFormed(before) {
        AppendPreservesWellFormed(before, raw);
      }
    }
  }

  /** Opening an empty ledger and pressing the add button twice gives a
      well-formed ledger whose rows are the two derived in turn. */
  method TwoAdds(first: Raw, second: Raw) returns (ledger: Ledger)
    ensures ledger.rows == Replay([first, second])
    ensures WellFormed(ledger.rows)
  {
    ledger := new Ledger(None);
    ledger.Add(first);
    ledger.Add(second);
    assert [first, second][..1] == [first];
    assert [first][..0] == [];
    ReplayWellFormed([first, second]);
  }
}

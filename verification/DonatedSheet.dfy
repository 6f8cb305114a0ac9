/**
  The sheet of donated items: dates and donors are written once and hold for the rows below. Cells
  are already parsed; rows are those below the two header rows.
 */
module DonatedSheet {
  import opened Common

  const DEFAULT_DONOR := "GOJ"

  /** Days are counted from an arbitrary origin; this one stands for 3 November 2025. */
  const THIRD_OF_NOVEMBER := 307

  /**
    A sheet row: its date if the cell parses, whether the cell's text mentions November, the item and
    the entity if not blank, and the quantity (zero if there is none).
   */
  datatype SheetRow = SheetRow(
    date: Option<int>, november: bool, item: Option<string>, entity: Option<string>, quantity: int)

  datatype Record = Record(row: nat, item: string, date: int, donor: string, quantity: int)

  // ----- What a row means -----

  /** The date in force after `n` rows: the latest one written. */
  function DateAfter(rows: seq<SheetRow>, n: nat): Option<int>
    requires n <= |rows|
  {
    if n == 0 then None
    else if rows[n - 1].november then Some(THIRD_OF_NOVEMBER)
    else if rows[n - 1].date.Some? then rows[n - 1].date
    else DateAfter(rows, n - 1)
  }

  /** Only an item row under a date names a donor. */
  predicate NamesDonor(rows: seq<SheetRow>, j: nat)
    requires j < |rows|
  {
    DateAfter(rows, j + 1).Some? && rows[j].item.Some? && rows[j].entity.Some?
  }

  /** Row `i` has its donor from row `j`: nothing in between names another or starts a parsed date. */
  ghost predicate Inherits(rows: seq<SheetRow>, j: nat, i: nat)
    requires j <= i < |rows|
  {
    NamesDonor(rows, j) && forall k :: j < k <= i ==> !NamesDonor(rows, k) && rows[k].date.None?
  }

  ghost predicate DonorOf(rows: seq<SheetRow>, i: nat, donor: string)
    requires i < |rows|
  {
    || (exists j :: 0 <= j <= i && Inherits(rows, j, i) && rows[j].entity == Some(donor))
    || (donor == DEFAULT_DONOR && forall j :: 0 <= j <= i ==> !Inherits(rows, j, i))
  }

  predicate Recorded(rows: seq<SheetRow>, i: nat)
    requires i < |rows|
  {
    DateAfter(rows, i + 1).Some? && rows[i].item.Some? && rows[i].quantity != 0
  }

  /** Every row has one donor. */
  lemma DonorUnique(rows: seq<SheetRow>, i: nat, a: string, b: string)
    requires i < |rows| && DonorOf(rows, i, a) && DonorOf(rows, i, b)
    ensures a == b
  {
    forall j, k | 0 <= j <= i && 0 <= k <= i && Inherits(rows, j, i) && Inherits(rows, k, i) ensures j == k {
    }
  }

  /** What the record made from its row says. */
  ghost predicate Faithful(rows: seq<SheetRow>, r: Record)
  {
    && r.row < |rows| && Recorded(rows, r.row)
    && rows[r.row].item == Some(r.item) && rows[r.row].quantity == r.quantity
    && DateAfter(rows, r.row + 1) == Some(r.date) && DonorOf(rows, r.row, r.donor)
  }

  /** The numbers of the recorded rows among the first `n`. */
  function RecordedRows(rows: seq<SheetRow>, n: nat): seq<nat>
    requires n <= |rows|
  {
    if n == 0 then [] else RecordedRows(rows, n - 1) + if Recorded(rows, n - 1) then [n - 1] else []
  }

  // ----- Dates and records, without the scan -----

  predicate HasDate(row: SheetRow)
  {
    row.date.Some? || row.november
  }

  /** The latest row with a date among the first `n`. */
  ghost predicate LatestDate(rows: seq<SheetRow>, n: nat, j: nat)
    requires n <= |rows|
  {
    j < n && HasDate(rows[j]) && forall k :: j < k < n ==> !HasDate(rows[k])
  }

  predicate DateGiven(row: SheetRow, d: int)
  {
    if row.november then d == THIRD_OF_NOVEMBER else row.date == Some(d)
  }

  /** The date in force is that of the latest row with one; the text date wins over a parsed one in its row. */
  lemma {:induction false} DateInForce(rows: seq<SheetRow>, n: nat)
    requires n <= |rows|
    ensures match DateAfter(rows, n)
      case None => forall j :: 0 <= j < n ==> !HasDate(rows[j])
      case Some(d) => exists j: nat :: LatestDate(rows, n, j) && DateGiven(rows[j], d)
  {
    if n > 0 {
      if HasDate(rows[n - 1]) {
        assert LatestDate(rows, n, n - 1) && DateGiven(rows[n - 1], DateAfter(rows, n).value);
      } else {
        DateInForce(rows, n - 1);
        if DateAfter(rows, n - 1).Some? {
          var j: nat :| LatestDate(rows, n - 1, j) && DateGiven(rows[j], DateAfter(rows, n - 1).value);
          assert LatestDate(rows, n, j);
        }
      }
    }
  }

  /** Recorded are exactly the rows with an item and a quantity that have a date at or above them. */
  lemma {:induction false} RecordedRowsExactly(rows: seq<SheetRow>, n: nat)
    requires n <= |rows|
    ensures forall i :: i in RecordedRows(rows, n) <==>
              0 <= i < n && rows[i].item.Some? && rows[i].quantity != 0 && exists j :: 0 <= j <= i && HasDate(rows[j])
  {
    if n > 0 {
      RecordedRowsExactly(rows, n - 1);
      DatedIff(rows, n);
    }
  }

  /** From top to bottom. */
  lemma {:induction false} RecordedRowsRise(rows: seq<SheetRow>, n: nat)
    requires n <= |rows|
    ensures forall r :: r in RecordedRows(rows, n) ==> r < n
    ensures forall i, j :: 0 <= i < j < |RecordedRows(rows, n)| ==> RecordedRows(rows, n)[i] < RecordedRows(rows, n)[j]
  {
    if n > 0 {
      RecordedRowsRise(rows, n - 1);
      var before := RecordedRows(rows, n - 1);
      forall i | 0 <= i < |before| ensures before[i] < n - 1 {
        assert before[i] in before;
      }
    }
  }

  lemma DatedIff(rows: seq<SheetRow>, n: nat)
    requires 0 < n <= |rows|
    ensures DateAfter(rows, n).Some? <==> exists j :: 0 <= j <= n - 1 && HasDate(rows[j])
  {
    DateInForce(rows, n);
  }

  // ----- Carrying the donor forward -----

  /** Row `j` still names the donor after `n` rows. */
  ghost predicate LastsTo(rows: seq<SheetRow>, j: nat, n: nat)
    requires j < n <= |rows|
  {
    Inherits(rows, j, n - 1)
  }

  /** The donor carried along says from which row the next row would inherit. */
  ghost predicate Carries(rows: seq<SheetRow>, n: nat, entity: Option<string>)
    requires n <= |rows|
  {
    match entity
    case None => forall j :: 0 <= j < n ==> !LastsTo(rows, j, n)
    case Some(e) => exists j :: 0 <= j < n && LastsTo(rows, j, n) && rows[j].entity == Some(e)
  }

  lemma LastsToNext(rows: seq<SheetRow>, j: nat, n: nat)
    requires j < n < |rows|
    ensures LastsTo(rows, j, n + 1) <==> LastsTo(rows, j, n) && !NamesDonor(rows, n) && rows[n].date.None?
  {
  }

  lemma CarriesNext(rows: seq<SheetRow>, n: nat, entity: Option<string>, next: Option<string>)
    requires n < |rows| && Carries(rows, n, entity)
    requires next == if NamesDonor(rows, n) then rows[n].entity else if rows[n].date.Some? then None else entity
    ensures Carries(rows, n + 1, next)
    ensures DonorOf(rows, n, if next.Some? then next.value else DEFAULT_DONOR)
  {
    forall j | 0 <= j < n
      ensures LastsTo(rows, j, n + 1) <==> LastsTo(rows, j, n) && !NamesDonor(rows, n) && rows[n].date.None?
    {
      LastsToNext(rows, j, n);
    }
    assert LastsTo(rows, n, n + 1) <==> NamesDonor(rows, n);
    var m := n + 1;
    if next.None? {
      forall j | 0 <= j < m ensures !LastsTo(rows, j, m) {
        assert j < n ==> !(LastsTo(rows, j, n) && rows[n].date.None?);
      }
    } else if !NamesDonor(rows, n) {
      var j :| 0 <= j < n && LastsTo(rows, j, n) && rows[j].entity == next;
      assert LastsTo(rows, j, m);
    }
    forall j | 0 <= j <= n ensures Inherits(rows, j, n) <==> LastsTo(rows, j, m) {
    }
  }

  /** Reads the sheet from top to bottom, carrying the date and the entity along. */
  method ParseItemsDonated(rows: seq<SheetRow>) returns (records: seq<Record>)
    ensures |records| == |RecordedRows(rows, |rows|)|
    ensures forall i :: 0 <= i < |records| ==>
              records[i].row == RecordedRows(rows, |rows|)[i] && Faithful(rows, records[i])
  {
    records := [];
    var date: Option<int> := None;
    var entity: Option<string> := None;
    for i := 0 to |rows|
      invariant date == DateAfter(rows, i)
      invariant Carries(rows, i, entity)
      invariant |records| == |RecordedRows(rows, i)|
      invariant forall j :: 0 <= j < |records| ==>
          records[j].row == RecordedRows(rows, i)[j] && Faithful(rows, records[j])
    {
      var row := rows[i];
      ghost var was := entity;
      if row.date.Some? {
        date, entity := row.date, None;
      }
      if row.november {
        date := Some(THIRD_OF_NOVEMBER);
      }
      if date.Some? && row.item.Some? && row.entity.Some? {
        entity := row.entity;
      }
      CarriesNext(rows, i, was, entity);
      if date.Some? && row.item.Some? && row.quantity != 0 {
        var donor := if entity.Some? then entity.value else DEFAULT_DONOR;
        records := records + [Record(i, row.item.value, date.value, donor, row.quantity)];
      }
    }
  }

  // ----- The text date -----

  /** Inheritance as announced: any date, the text one included, ends it. */
  ghost predicate InheritsByDate(rows: seq<SheetRow>, j: nat, i: nat)
    requires j <= i < |rows|
  {
    Inherits(rows, j, i) && forall k :: j < k <= i ==> !rows[k].november
  }

  ghost predicate DonorByDate(rows: seq<SheetRow>, i: nat, donor: string)
    requires i < |rows|
  {
    || (exists j :: 0 <= j <= i && InheritsByDate(rows, j, i) && rows[j].entity == Some(donor))
    || (donor == DEFAULT_DONOR && forall j :: 0 <= j <= i ==> !InheritsByDate(rows, j, i))
  }

  lemma OneSource(rows: seq<SheetRow>, j: nat, k: nat, i: nat)
    requires j <= i < |rows| && k <= i && Inherits(rows, j, i) && Inherits(rows, k, i)
    ensures j == k
  {
  }

  /** A text date stands between row `i` and the row that it has its donor from. */
  ghost predicate TextDateBetween(rows: seq<SheetRow>, j: nat, i: nat)
    requires j <= i < |rows|
  {
    Inherits(rows, j, i) && exists k :: j < k <= i && rows[k].november
  }

  /**
    A row's donor is not the one that dates call for exactly if a text date stands between it and the
    row it inherits from, and that row does not name the default donor anyway.
   */
  lemma DonorOffIff(rows: seq<SheetRow>, i: nat, actual: string, announced: string)
    requires i < |rows| && DonorOf(rows, i, actual) && DonorByDate(rows, i, announced)
    ensures actual != announced <==>
            exists j :: 0 <= j <= i && TextDateBetween(rows, j, i) && rows[j].entity != Some(DEFAULT_DONOR)
  {
    if j :| 0 <= j <= i && Inherits(rows, j, i) {
      forall h | 0 <= h <= i && Inherits(rows, h, i) ensures h == j {
        OneSource(rows, h, j, i);
      }
      assert rows[j].entity == Some(actual);
      if TextDateBetween(rows, j, i) {
        assert announced == DEFAULT_DONOR;
      } else {
        assert InheritsByDate(rows, j, i);
      }
    }
  }

  /** Every row has a donor by either rule. */
  lemma DonorsExist(rows: seq<SheetRow>, i: nat)
    requires i < |rows|
    ensures (exists d :: DonorOf(rows, i, d)) && (exists d :: DonorByDate(rows, i, d))
  {
    if j :| 0 <= j <= i && Inherits(rows, j, i) {
      assert DonorOf(rows, i, rows[j].entity.value);
    } else {
      assert DonorOf(rows, i, DEFAULT_DONOR);
    }
    if j :| 0 <= j <= i && InheritsByDate(rows, j, i) {
      assert DonorByDate(rows, i, rows[j].entity.value);
    } else {
      assert DonorByDate(rows, i, DEFAULT_DONOR);
    }
  }

  /** The text date starts a new day but keeps the donor of the day before. */
  lemma NovemberKeepsDonor(row: SheetRow, text: SheetRow, donor: string)
    requires row.date.Some? && row.item.Some? && row.entity == Some(donor)
    requires text.november && text.date.None? && text.item.Some? && text.entity.None?
    ensures DateAfter([row, text], 2) == Some(THIRD_OF_NOVEMBER) && DonorOf([row, text], 1, donor)
  {
    var rows := [row, text];
    assert DateAfter(rows, 1).Some?;
    assert Inherits(rows, 0, 1);
  }
}

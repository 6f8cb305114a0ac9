/**
  The handlers as they run: a store whose tables they read and assign, with the loops that collect
  form errors and then write rows one by one. Each is proved against its transition.
 */
module Store {
  import opened Common
  import opened Tables
  import opened Donations
  import opened Intakes
  import opened Ledger

  datatype FormError =
    | HeaderInvalid
    | NoItems
    | DuplicateItem(row: nat)
    | RowInvalid(row: nat)

  datatype EntryError =
    | IntakeDateInvalid
    | CommentsTooLong
    | LineProblem(item: ItemId, error: LineError)
    | DuplicateBatch(item: ItemId)
    | QuantityMismatch(item: ItemId, actual: int, expected: int)
    | NoIntakeData(item: ItemId)
    | LinesRefused

  predicate Repeated(rows: seq<ItemRow>, k: nat)
    requires k < |rows|
  {
    exists j :: 0 <= j < k && rows[j].itemId == rows[k].itemId
  }

  /** The errors found while the first `n` rows are read. */
  predicate ReadingErrorApplies(cfg: Config, mode: RowMode, form: DonationForm, n: nat, e: FormError)
    requires n <= |form.rows|
  {
    match e
    case HeaderInvalid => !form.headerOk
    case NoItems => false
    case DuplicateItem(k) => k < n && Repeated(form.rows, k)
    case RowInvalid(k) => k < n && !Repeated(form.rows, k) && !RowReadable(cfg, mode, form.rows[k])
  }

  /** The form is free of the errors that reading it can show. */
  predicate ReadsWell(cfg: Config, mode: RowMode, form: DonationForm)
  {
    && form.headerOk && form.rows != []
    && forall k :: 0 <= k < |form.rows| ==> !Repeated(form.rows, k) && RowReadable(cfg, mode, form.rows[k])
  }

  /** Exactly the errors a row-carrying form deserves. */
  predicate FormErrorApplies(cfg: Config, mode: RowMode, form: DonationForm, e: FormError)
  {
    || ReadingErrorApplies(cfg, mode, form, |form.rows|, e)
    || (e.NoItems? && form.rows == [])
    || (e.RowInvalid? && e.row < |form.rows| && mode == Creating && ReadsWell(cfg, mode, form)
      && !Priced(form.rows[e.row]))
  }

  /** Exactly the errors an entry form deserves. A batch number cannot repeat: there is one line per item. */
  predicate EntryErrorApplies(cfg: Config, today: Day, goods: map<ItemId, DonationItem>, form: EntryForm, e: EntryError)
  {
    match e
    case IntakeDateInvalid => !(form.intakeDate.On? && form.intakeDate.day <= today)
    case CommentsTooLong => form.commentLength > 255
    case LineProblem(i, err) => i in goods && EntryResult(cfg, today, form, i) == Err(err)
    case DuplicateBatch(_) => false
    case QuantityMismatch(i, actual, expected) =>
      i in goods && expected == goods[i].qty && actual == EnteredTotal(cfg, today, form, i) && actual != expected
    case NoIntakeData(i) => i in goods && EntryResult(cfg, today, form, i).Err?
    case LinesRefused =>
      EntryAccepted(cfg, today, goods, form) && !LinesStorable(cfg, EntryLines(cfg, today, goods, form))
  }

  /** The total entered for an item, 0 when its line was refused. */
  function EnteredTotal(cfg: Config, today: Day, form: EntryForm, i: ItemId): int
  {
    var r := EntryResult(cfg, today, form, i);
    if r.Ok? then r.value.q.Total() else 0
  }

  /** The restriction of `m` to what a loop over its keys has already handled. */
  function Done<V>(m: map<ItemId, V>, todo: set<ItemId>): map<ItemId, V>
  {
    map i | i in m && i !in todo :: m[i]
  }

  /** All lines posted to the stock of one warehouse. */
  predicate StockPosted(before: Stock, after: Stock, w: WarehouseId, lines: map<ItemId, Line>)
  {
    after == Post(before, w, lines)
  }

  /** The intake verified with its lines, the donation processed, the journal extended. */
  predicate StatusesWritten(before: Db, after: Db, key: IntakeKey, lines: map<ItemId, Line>)
    requires HasRows(before, key)
  {
    var n, d := before.intakes[key], before.donations[key.donation];
    && after.intakes == before.intakes[key := Intake(Posted, n.version + 1, lines)]
    && after.donations == before.donations[key.donation := Donation(Processed, d.version + 1, d.items)]
    && after.journal == before.journal + [Posting(key, n.version, lines)]
  }

  predicate PostingCommitted(before: Db, after: Db, key: IntakeKey, lines: map<ItemId, Line>)
  {
    HasRows(before, key) && after == CommitPosting(before, key, lines)
  }

  class Store {
    const cfg: Config
    var donations: map<DonationId, Donation>
    var intakes: map<IntakeKey, Intake>
    var batches: map<BatchKey, Batch>
    var inventory: map<StockKey, Quantities>
    var journal: seq<Posting>

    function Contents(): Db
      reads this
    {
      Db(donations, intakes, Stock(batches, inventory), journal)
    }

    constructor (cfg: Config, db: Db)
      ensures this.cfg == cfg && Contents() == db
    {
      this.cfg := cfg;
      donations, intakes, batches, inventory, journal :=
        db.donations, db.intakes, db.stock.batches, db.stock.inventory, db.journal;
    }

    // ----- Donations -----

    /**
      Collects the errors of a row-carrying form; duplicate rows are reported and skipped. The costs of
      new FUNDS items are looked at in a second pass, if there is no error before.
     */
    method ValidateRows(mode: RowMode, form: DonationForm) returns (errors: seq<FormError>)
      ensures forall e :: e in errors <==> FormErrorApplies(cfg, mode, form, e)
      ensures errors == [] <==> FormOk(cfg, mode, form)
    {
      errors := if form.headerOk then [] else [HeaderInvalid];
      var seen: set<ItemId> := {};
      for k := 0 to |form.rows|
        invariant seen == set j | 0 <= j < k :: form.rows[j].itemId
        invariant forall e :: e in errors <==> ReadingErrorApplies(cfg, mode, form, k, e)
      {
        var row := form.rows[k];
        assert row.itemId in seen <==> Repeated(form.rows, k);
        if row.itemId in seen {
          errors := errors + [DuplicateItem(k)];
          continue;
        }
        seen := seen + {row.itemId};
        if !RowReadable(cfg, mode, row) {
          errors := errors + [RowInvalid(k)];
        }
      }
      if form.rows == [] {
        errors := errors + [NoItems];
      }
      ReadWithoutErrors(cfg, mode, form, errors);
      if mode == Creating && errors == [] {
        for k := 0 to |form.rows|
          invariant forall e :: e in errors <==> e.RowInvalid? && e.row < k && !Priced(form.rows[e.row])
        {
          if !Priced(form.rows[k]) {
            errors := errors + [RowInvalid(k)];
          }
        }
      }
      NoFormErrors(cfg, mode, form, errors);
    }

    /** Writes the rows of an accepted form one after the other. */
    method WriteRows(mode: RowMode, start: map<ItemId, DonationItem>, rows: seq<ItemRow>)
      returns (items: map<ItemId, DonationItem>)
      ensures items == PutRows(mode, start, rows)
    {
      items := start;
      for k := 0 to |rows|
        invariant items == PutRows(mode, start, rows[..k])
      {
        items := PutRow(mode, items, rows[k]);
        assert rows[..k + 1][..k] == rows[..k];
      }
      assert rows[..|rows|] == rows;
    }

    /** Deletes the items that the form no longer lists. */
    method DropMissing(
      current: map<ItemId, DonationItem>, rows: seq<ItemRow>) returns (items: map<ItemId, DonationItem>)
      ensures items == Retained(current, rows)
    {
      items := current;
      var submitted := set k | 0 <= k < |rows| :: rows[k].itemId;
      var todo := current.Keys - submitted;
      while todo != {}
        invariant todo <= current.Keys - submitted
        invariant items == map i | i in current && (i in submitted || i in todo) :: current[i]
      {
        var i :| i in todo;
        todo := todo - {i};
        items := items - {i};
      }
      assert items == Retained(current, rows);
    }

    method CreateDonation(id: DonationId, form: DonationForm) returns (created: bool)
      modifies this
      ensures Contents() == Create(cfg, old(Contents()), id, form)
      ensures created <==> CanCreate(cfg, old(Contents()), id, form)
    {
      var errors := ValidateRows(Creating, form);
      if errors != [] || !form.docsOk || id in donations || !KeysOk(cfg, Creating, map[], form.rows) {
        return false;
      }
      var items := WriteRows(Creating, map[], form.rows);
      donations := donations[id := Donation(Entered, 1, items)];
      return true;
    }

    method EditDonation(id: DonationId, version: nat, form: DonationForm) returns (saved: bool)
      modifies this
      ensures Contents() == Edit(cfg, old(Contents()), id, version, form)
      ensures saved <==> CanEdit(cfg, old(Contents()), id, version, form)
    {
      if id !in donations || donations[id].status != Entered || version != donations[id].version {
        return false;
      }
      var errors := ValidateRows(Editing, form);
      if errors != [] || !KeysOk(cfg, Editing, donations[id].items, form.rows) {
        return false;
      }
      var items := DropMissing(donations[id].items, form.rows);
      items := WriteRows(Editing, items, form.rows);
      donations := donations[id := Donation(Entered, donations[id].version + 1, items)];
      return true;
    }

    method VerifyDonation(id: DonationId, version: Option<nat>, form: DonationForm) returns (verified: bool)
      modifies this
      ensures Contents() == Verify(cfg, old(Contents()), id, version, form)
      ensures verified <==> CanVerify(cfg, old(Contents()), id, version, form)
    {
      if id !in donations || donations[id].status != Entered || version != Some(donations[id].version) {
        return false;
      }
      var errors := ValidateRows(Verifying, form);
      if errors != [] || !form.docsOk || !KeysOk(cfg, Verifying, donations[id].items, form.rows) {
        return false;
      }
      var items := DropMissing(donations[id].items, form.rows);
      items := WriteRows(Verifying, items, form.rows);
      donations := donations[id := Donation(Verified, donations[id].version + 1, items)];
      return true;
    }

    method DeleteDonation(id: DonationId) returns (deleted: bool)
      modifies this
      ensures Contents() == Delete(old(Contents()), id)
      ensures deleted <==> CanDelete(old(Contents()), id)
    {
      if id !in donations || donations[id].status != Entered || donations[id].items != map[] {
        return false;
      }
      donations := donations - {id};
      return true;
    }

    method AddDonationItem(id: DonationId, item: ItemId, form: ItemForm) returns (added: bool)
      modifies this
      ensures Contents() == AddItem(cfg, old(Contents()), id, item, form)
      ensures added <==> CanAddItem(cfg, old(Contents()), id, item, form)
    {
      if id !in donations || donations[id].status != Entered {
        return false;
      }
      if !form.qty.Num? || form.qty.n <= 0 || !form.hasUom || !form.hasLocation || item in donations[id].items {
        return false;
      }
      if item !in cfg.items {
        return false;
      }
      var row := DonationItem(GOODS, form.qty.n, 0, true, false, PendingItem, 1);
      donations := donations[id := donations[id].(items := donations[id].items[item := row])];
      return true;
    }

    method EditDonationItem(id: DonationId, item: ItemId, version: int, form: ItemForm) returns (saved: bool)
      modifies this
      ensures Contents() == EditItem(old(Contents()), id, item, version, form)
      ensures saved <==> CanEditItem(old(Contents()), id, item, version, form)
    {
      if id !in donations || item !in donations[id].items || donations[id].status != Entered {
        return false;
      }
      if version != donations[id].items[item].version {
        return false;
      }
      if !form.qty.Num? || form.qty.n <= 0 || !form.hasUom || !form.hasLocation || form.status.None? {
        return false;
      }
      var row := EditedItem(donations[id].items[item], form);
      if !ItemConstraints(row) {
        return false;
      }
      donations := donations[id := donations[id].(items := donations[id].items[item := row])];
      return true;
    }

    method DeleteDonationItem(id: DonationId, item: ItemId) returns (deleted: bool)
      modifies this
      ensures Contents() == DeleteItem(old(Contents()), id, item)
      ensures deleted <==> CanDeleteItem(old(Contents()), id, item)
    {
      if id !in donations || item !in donations[id].items || donations[id].status != Entered {
        return false;
      }
      donations := donations[id := donations[id].(items := donations[id].items - {item})];
      return true;
    }

    // ----- Intake entry -----

    /** Reads every line of the entry form, in whatever order the database returns the items. */
    method ReadEntryLines(today: Day, goods: map<ItemId, DonationItem>, form: EntryForm)
      returns (errors: seq<EntryError>, data: map<ItemId, Line>)
      ensures data == EntryLines(cfg, today, goods, form)
      ensures forall e :: e in errors <==> e.LineProblem? && EntryErrorApplies(cfg, today, goods, form, e)
    {
      errors, data := [], map[];
      var todo := goods.Keys;
      while todo != {}
        invariant todo <= goods.Keys
        invariant data == Done(EntryLines(cfg, today, goods, form), todo)
        invariant forall e :: e in errors <==>
                    e.LineProblem? && e.item !in todo && EntryErrorApplies(cfg, today, goods, form, e)
      {
        var i :| i in todo;
        todo := todo - {i};
        var r := EntryResult(cfg, today, form, i);
        if r.Err? {
          errors := errors + [LineProblem(i, r.error)];
          continue;
        }
        data := data[i := r.value];
      }
    }

    /** The three later passes: repeated batch numbers, totals against the donation, items without data. */
    method CompareWithDonation(today: Day, goods: map<ItemId, DonationItem>, form: EntryForm, data: map<ItemId, Line>)
      returns (errors: seq<EntryError>)
      requires data == EntryLines(cfg, today, goods, form)
      ensures forall e :: e in errors <==>
                (e.QuantityMismatch? || e.NoIntakeData?) && EntryErrorApplies(cfg, today, goods, form, e)
    {
      errors := [];
      var seen: set<(ItemId, string)> := {};
      var todo := data.Keys;
      while todo != {}
        invariant todo <= data.Keys && forall p :: p in seen ==> p.0 !in todo
        invariant errors == []
      {
        var i :| i in todo;
        todo := todo - {i};
        if (i, data[i].batchNo) in seen {
          errors := errors + [DuplicateBatch(i)];
        }
        seen := seen + {(i, data[i].batchNo)};
      }
      todo := goods.Keys;
      while todo != {}
        invariant todo <= goods.Keys
        invariant forall e :: e in errors <==>
                    e.QuantityMismatch? && e.item !in todo && EntryErrorApplies(cfg, today, goods, form, e)
      {
        var i :| i in todo;
        todo := todo - {i};
        var actual := if i in data then data[i].q.Total() else 0;
        if actual != goods[i].qty {
          errors := errors + [QuantityMismatch(i, actual, goods[i].qty)];
        }
      }
      todo := goods.Keys;
      while todo != {}
        invariant todo <= goods.Keys
        invariant forall e :: e in errors <==>
                    (e.QuantityMismatch? || (e.NoIntakeData? && e.item !in todo))
                      && EntryErrorApplies(cfg, today, goods, form, e)
      {
        var i :| i in todo;
        todo := todo - {i};
        if i !in data {
          errors := errors + [NoIntakeData(i)];
        }
      }
    }

    /** The entry handler: its guards, its error list, and the rows it writes when there is none. */
    method EnterIntake(key: IntakeKey, today: Day, form: EntryForm) returns (admitted: bool, errors: seq<EntryError>)
      modifies this
      ensures admitted <==> EntryGuards(cfg, old(Contents()), key)
      ensures Contents() == if admitted then Save(cfg, old(Contents()), key, today, form) else old(Contents())
      ensures admitted ==>
                forall e :: e in errors <==>
                    EntryErrorApplies(cfg, today, GoodsOf(cfg, old(donations[key.donation])), form, e)
      ensures admitted ==> (errors == [] <==> CanSave(cfg, old(Contents()), key, today, form))
    {
      errors := [];
      if key.warehouse !in cfg.warehouses || !cfg.warehouses[key.warehouse] || key.donation !in donations
         || donations[key.donation].status != Verified || (key in intakes && intakes[key].status == Posted)
      {
        return false, [];
      }
      admitted := true;
      if !(form.intakeDate.On? && form.intakeDate.day <= today) {
        errors := errors + [IntakeDateInvalid];
      }
      if form.commentLength > 255 {
        errors := errors + [CommentsTooLong];
      }
      var goods := GoodsOf(cfg, donations[key.donation]);
      var lineErrors, data := ReadEntryLines(today, goods, form);
      var totalErrors := CompareWithDonation(today, goods, form, data);
      errors := errors + lineErrors + totalErrors;
      NoErrorsIffAccepted(cfg, today, goods, form, errors);
      if errors != [] {
        return;
      }
      if !LinesStorable(cfg, data) {
        errors := [LinesRefused];
        return;
      }
      var version := if key in intakes then intakes[key].version + 1 else 1;
      intakes := intakes[key := Intake(if form.draft then Draft else Submitted, version, data)];
    }

    // ----- Intake verification -----

    /** Checks every line of the intake against the verification form. */
    method ReadVerifyLines(today: Day, lines: map<ItemId, Line>, items: map<ItemId, DonationItem>, form: VerifyForm)
      returns (errors: seq<(ItemId, LineError)>, data: map<ItemId, Line>)
      ensures data == VerifiedLines(cfg, today, lines, items, form)
      ensures errors == [] <==> VerifyAccepted(cfg, today, lines, items, form)
      ensures forall e :: e in errors <==> e.0 in lines && VerifyResult(cfg, today, lines, items, form, e.0) == Err(e.1)
    {
      errors, data := [], map[];
      var todo := lines.Keys;
      while todo != {}
        invariant todo <= lines.Keys
        invariant data == Done(VerifiedLines(cfg, today, lines, items, form), todo)
        invariant forall e :: e in errors <==>
                    e.0 in lines && e.0 !in todo && VerifyResult(cfg, today, lines, items, form, e.0) == Err(e.1)
      {
        var i :| i in todo;
        todo := todo - {i};
        var r := VerifyResult(cfg, today, lines, items, form, i);
        if r.Err? {
          errors := errors + [(i, r.error)];
          continue;
        }
        data := data[i := r.value];
      }
      NoneIffAccepted(cfg, today, lines, items, form, errors);
    }

    /** Posts the lines one by one: each raises, or creates, its batch row and its inventory row. */
    method PostLines(w: WarehouseId, data: map<ItemId, Line>)
      modifies this`batches, this`inventory
      ensures StockPosted(old(Stock(batches, inventory)), Stock(batches, inventory), w, data)
    {
      var todo := data.Keys;
      assert Done(data, todo) == map[];
      PostNothing(batches, inventory, w);
      while todo != {}
        invariant todo <= data.Keys
        invariant batches == PostBatches(old(batches), w, Done(data, todo))
        invariant inventory == PostInventory(old(inventory), w, Done(data, todo))
      {
        var i :| i in todo;
        var l := data[i];
        ghost var done := Done(data, todo);
        todo := todo - {i};
        assert Done(data, todo) == done[i := l];
        PostOneMore(old(batches), w, done, i, l);
        StockOneMore(old(inventory), w, done, i, l);
        var b := BatchKey(w, i, l.batchNo);
        if b in batches {
          var expiry := if l.expiry.Some? && (batches[b].expiry.None? || l.expiry.value < batches[b].expiry.value)
                        then l.expiry else batches[b].expiry;
          batches := batches[b := batches[b].(q := batches[b].q.Plus(l.q), expiry := expiry)];
        } else {
          batches := batches[b := Batch(l.q, l.expiry, l.batchDate, l.unitValue)];
        }
        var s := StockKey(w, i);
        if s in inventory {
          inventory := inventory[s := inventory[s].Plus(l.q)];
        } else {
          inventory := inventory[s := l.q];
        }
      }
      assert Done(data, todo) == data;
    }

    /** The writes of one verification: intake and lines, both stock tables, the donation, the audit entry. */
    method WriteVerified(key: IntakeKey, data: map<ItemId, Line>)
      requires Awaiting(Contents(), key)
      modifies this
      ensures PostingCommitted(old(Contents()), Contents(), key, data)
    {
      ghost var db := Contents();
      WriteStatuses(key, data);
      PostLines(key.warehouse, data);
      CommitAssembled(db, Contents(), key, data);
    }

    method WriteStatuses(key: IntakeKey, data: map<ItemId, Line>)
      requires HasRows(Contents(), key)
      modifies this`intakes, this`donations, this`journal
      ensures StatusesWritten(old(Contents()), Contents(), key, data)
    {
      var n, d := intakes[key], donations[key.donation];
      intakes := intakes[key := Intake(Posted, n.version + 1, data)];
      donations := donations[key.donation := Donation(Processed, d.version + 1, d.items)];
      journal := journal + [Posting(key, n.version, data)];
    }

    /** The verification handler: checks every line, then commits everything or nothing. */
    method VerifySubmitted(key: IntakeKey, today: Day, form: VerifyForm) returns (posted: bool)
      modifies this
      ensures Contents() == VerifyIntake(cfg, old(Contents()), key, today, form)
      ensures posted <==> CanVerifyIntake(cfg, old(Contents()), key, today, form)
    {
      if key !in intakes || intakes[key].status != Submitted || key.donation !in donations {
        return false;
      }
      var errors, data := ReadVerifyLines(today, intakes[key].lines, donations[key.donation].items, form);
      if errors != [] || !LinesStorable(cfg, data) {
        return false;
      }
      WriteVerified(key, data);
      return true;
    }
  }

  lemma CommitIntake(db: Db, key: IntakeKey, data: map<ItemId, Line>)
    requires Awaiting(db, key)
    ensures CommitPosting(db, key, data).intakes == db.intakes[key := Intake(Posted, db.intakes[key].version + 1, data)]
  {
  }

  lemma CommitDonation(db: Db, key: IntakeKey, data: map<ItemId, Line>)
    requires Awaiting(db, key)
    ensures var d := db.donations[key.donation];
      CommitPosting(db, key, data).donations ==
          db.donations[key.donation := Donation(Processed, d.version + 1, d.items)]
  {
  }

  lemma CommitStock(db: Db, key: IntakeKey, data: map<ItemId, Line>)
    requires Awaiting(db, key)
    ensures CommitPosting(db, key, data).stock == Post(db.stock, key.warehouse, data)
    ensures CommitPosting(db, key, data).journal == db.journal + [Posting(key, db.intakes[key].version, data)]
  {
  }

  lemma CommitAssembled(db: Db, db': Db, key: IntakeKey, data: map<ItemId, Line>)
    requires Awaiting(db, key)
    requires StatusesWritten(db, db', key, data)
    requires StockPosted(db.stock, db'.stock, key.warehouse, data)
    ensures PostingCommitted(db, db', key, data)
  {
    CommitIntake(db, key, data);
    CommitDonation(db, key, data);
    CommitStock(db, key, data);
  }

  lemma ReadWithoutErrors(cfg: Config, mode: RowMode, form: DonationForm, errors: seq<FormError>)
    requires forall e :: e in errors <==>
               ReadingErrorApplies(cfg, mode, form, |form.rows|, e) || (e.NoItems? && form.rows == [])
    ensures errors == [] <==> ReadsWell(cfg, mode, form)
  {
    if errors == [] {
      assert HeaderInvalid !in errors && NoItems !in errors;
      forall k | 0 <= k < |form.rows| ensures !Repeated(form.rows, k) && RowReadable(cfg, mode, form.rows[k]) {
        assert DuplicateItem(k) !in errors && RowInvalid(k) !in errors;
      }
    } else {
      assert errors[0] in errors;
    }
  }

  lemma NoFormErrors(cfg: Config, mode: RowMode, form: DonationForm, errors: seq<FormError>)
    requires forall e :: e in errors <==> FormErrorApplies(cfg, mode, form, e)
    ensures errors == [] <==> FormOk(cfg, mode, form)
  {
    if errors == [] {
      assert HeaderInvalid !in errors && NoItems !in errors;
      forall k | 0 <= k < |form.rows| ensures !Repeated(form.rows, k) && RowReadable(cfg, mode, form.rows[k]) {
        assert DuplicateItem(k) !in errors && RowInvalid(k) !in errors;
      }
      forall k | 0 <= k < |form.rows| ensures RowOk(cfg, mode, form.rows[k]) {
        assert RowInvalid(k) !in errors;
      }
      forall i, j | 0 <= i < j < |form.rows| ensures form.rows[i].itemId != form.rows[j].itemId {
        assert !Repeated(form.rows, j);
      }
    } else {
      assert errors[0] in errors;
    }
  }

  /** No error applies exactly when the entry is accepted. */
  lemma NoErrorsIffAccepted(
    cfg: Config, today: Day, goods: map<ItemId, DonationItem>, form: EntryForm, errors: seq<EntryError>)
    requires forall e :: e in errors <==> !e.LinesRefused? && EntryErrorApplies(cfg, today, goods, form, e)
    ensures errors == [] <==> EntryAccepted(cfg, today, goods, form)
  {
    if errors == [] {
      assert !EntryErrorApplies(cfg, today, goods, form, IntakeDateInvalid);
      assert !EntryErrorApplies(cfg, today, goods, form, CommentsTooLong);
      forall i | i in goods
        ensures EntryResult(cfg, today, form, i).Ok? && EntryResult(cfg, today, form, i).value.q.Total() == goods[i].qty
      {
        assert !EntryErrorApplies(cfg, today, goods, form, NoIntakeData(i));
        assert !EntryErrorApplies(cfg, today, goods, form,
                                  QuantityMismatch(i, EnteredTotal(cfg, today, form, i), goods[i].qty));
      }
    } else {
      assert errors[0] in errors;
    }
  }

  lemma NoneIffAccepted(
    cfg: Config, today: Day, lines: map<ItemId, Line>, items: map<ItemId, DonationItem>, form: VerifyForm,
    errors: seq<(ItemId, LineError)>)
    requires forall e :: e in errors <==> e.0 in lines && VerifyResult(cfg, today, lines, items, form, e.0) == Err(e.1)
    ensures errors == [] <==> VerifyAccepted(cfg, today, lines, items, form)
  {
    forall i | i in lines && VerifyResult(cfg, today, lines, items, form, i).Err?
      ensures (i, VerifyResult(cfg, today, lines, items, form, i).error) in errors
    {
    }
    if errors != [] {
      assert errors[0] in errors;
    }
  }

  lemma PostNothing(batches: map<BatchKey, Batch>, inventory: map<StockKey, Quantities>, w: WarehouseId)
    ensures PostBatches(batches, w, map[]) == batches
    ensures PostInventory(inventory, w, map[]) == inventory
  {
  }

  /** Posting one more line touches one batch row that none of the earlier lines touched. */
  lemma PostOneMore(batches: map<BatchKey, Batch>, w: WarehouseId, done: map<ItemId, Line>, i: ItemId, l: Line)
    requires i !in done
    ensures var b := BatchKey(w, i, l.batchNo);
      PostBatches(batches, w, done[i := l]) ==
          PostBatches(batches, w, done)[b := Merge(PostBatches(batches, w, done), b, l)]
  {
    var b := BatchKey(w, i, l.batchNo);
    var before, after := PostBatches(batches, w, done), PostBatches(batches, w, done[i := l]);
    PostBatchesAt(batches, w, done, b);
    assert Merge(before, b, l) == Merge(batches, b, l);
    forall k ensures k in after <==> k in before || k == b {
      PostBatchesAt(batches, w, done, k);
      PostBatchesAt(batches, w, done[i := l], k);
    }
    forall k | k in after ensures after[k] == before[b := Merge(before, b, l)][k] {
      PostBatchesAt(batches, w, done, k);
      PostBatchesAt(batches, w, done[i := l], k);
    }
  }

  lemma StockOneMore(inventory: map<StockKey, Quantities>, w: WarehouseId, done: map<ItemId, Line>, i: ItemId, l: Line)
    requires i !in done
    ensures var s := StockKey(w, i);
      PostInventory(inventory, w, done[i := l]) ==
          PostInventory(inventory, w, done)[s := Raise(PostInventory(inventory, w, done), s, l.q)]
  {
    var s := StockKey(w, i);
    var before, after := PostInventory(inventory, w, done), PostInventory(inventory, w, done[i := l]);
    assert StockKey(w, i) in after;
    forall k ensures k in after <==> k in before || k == s {
      if k in after && k !in inventory && k != s {
        assert k.warehouse == w && k.item in done;
        assert k == StockKey(w, k.item);
      }
      if k in before {
        assert k in inventory || k == StockKey(w, k.item);
      }
    }
  }
}

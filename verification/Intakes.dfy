/**
  Donation intake: the checks on one entry line and on one verification line, and the two
  transitions of the workflow (saving an entry, posting a verified intake to stock).
 */
module Intakes {
  import opened Common
  import opened Tables

  /** The fields an entry form carries for one item. The batch number arrives trimmed and in upper case. */
  datatype EntryLine = EntryLine(
    batchNo: string, batchDate: DateField, expiry: DateField, hasUom: bool, unitValue: NumField,
    usable: NumField, defective: NumField, expired: NumField)

  datatype EntryForm = EntryForm(intakeDate: DateField, commentLength: nat, draft: bool, lines: map<ItemId, EntryLine>)

  /** The fields a verification form carries for one item; an empty batch number keeps the one entered. */
  datatype VerifyLine = VerifyLine(
    batchNo: string, batchDate: DateField, expiry: DateField, defective: NumField, expired: NumField)

  type VerifyForm = map<ItemId, VerifyLine>

  datatype LineError =
    | MissingData | BatchNoRequired | BatchDateRequired | FutureBatchDate | BadBatchDate
    | ExpiryRequired | ExpiryPast | ExpiryBeforeBatch | BadExpiry
    | UomRequired | NegativeQuantity | ZeroUsable | BadQuantity | UnitCostNotPositive | BadUnitCost
    | DonationItemMissing | DonationQuantityZero | IntakeQuantityZero
    | DeductionsExceedIntake | DeductionsExceedDonation

  datatype Result<+T> = Ok(value: T) | Err(error: LineError)

  /** An empty field counts as zero. */
  function Amount(f: NumField): Option<int>
  {
    match f
    case Absent => Some(0)
    case Blank => Some(0)
    case Malformed => None
    case Num(n) => Some(n)
  }

  /** Quantity (hundredths) times unit value (cents), rounded half up to whole cents as the column is. */
  function ExtCost(total: int, unitValue: int): int
  {
    (total * unitValue + 50) / 100
  }

  // ----- Entry -----

  /** Batch number and date of an entry line; an unbatched item without either gets its code and today. */
  function EntryBatch(info: ItemInfo, today: Day, l: EntryLine): Result<(string, Day)>
  {
    if info.isBatched && l.batchNo == "" then Err(BatchNoRequired)
    else if info.isBatched && l.batchDate.NoDate? then Err(BatchDateRequired)
    else if l.batchNo != "" && l.batchDate.NoDate? then Err(BatchDateRequired)
    else if l.batchNo == "" && !l.batchDate.NoDate? then Err(BatchNoRequired)
    else if l.batchNo == "" then Ok((info.code, today))
    else if l.batchDate.BadDate? then Err(BadBatchDate)
    else if l.batchDate.day > today then Err(FutureBatchDate)
    else Ok((l.batchNo, l.batchDate.day))
  }

  /** Expiry of an entry line: required and checked for perishables, otherwise taken if it parses. */
  function EntryExpiry(info: ItemInfo, today: Day, l: EntryLine, batchDate: Day): Result<Option<Day>>
  {
    if info.canExpire then
      match l.expiry
      case NoDate => Err(ExpiryRequired)
      case BadDate => Err(BadExpiry)
      case On(d) =>
        if d < today then Err(ExpiryPast)
        else if d < batchDate then Err(ExpiryBeforeBatch)
        else Ok(Some(d))
    else if l.expiry.On? then Ok(Some(l.expiry.day))
    else Ok(None)
  }

  function EntryQuantities(l: EntryLine): Result<Quantities>
  {
    var u, d, x := Amount(l.usable), Amount(l.defective), Amount(l.expired);
    if u.None? || d.None? || x.None? then Err(BadQuantity)
    else if u.value < 0 || d.value < 0 || x.value < 0 then Err(NegativeQuantity)
    else if u.value == 0 then Err(ZeroUsable)
    else Ok(Quantities(u.value, d.value, x.value))
  }

  function CheckEntryLine(info: ItemInfo, today: Day, l: EntryLine): Result<Line>
  {
    var b := EntryBatch(info, today, l);
    if b.Err? then Err(b.error) else
    var e := EntryExpiry(info, today, l, b.value.1);
    if e.Err? then Err(e.error)
    else if !l.hasUom then Err(UomRequired) else
    var q := EntryQuantities(l);
    if q.Err? then Err(q.error) else
    var unit := Amount(l.unitValue);
    if unit.None? then Err(BadUnitCost)
    else if unit.value <= 0 then Err(UnitCostNotPositive)
    else
      Ok(Line(b.value.0, b.value.1, e.value, unit.value, ExtCost(q.value.Total(), unit.value), q.value, PendingItem))
  }

  function EntryResult(cfg: Config, today: Day, form: EntryForm, i: ItemId): Result<Line>
  {
    if i !in form.lines || i !in cfg.items then Err(MissingData)
    else CheckEntryLine(cfg.items[i], today, form.lines[i])
  }

  /** The lines that pass their own checks. */
  function EntryLines(cfg: Config, today: Day, goods: map<ItemId, DonationItem>, form: EntryForm): map<ItemId, Line>
  {
    map i | i in goods && EntryResult(cfg, today, form, i).Ok? :: EntryResult(cfg, today, form, i).value
  }

  predicate EntryHeaderOk(today: Day, form: EntryForm)
  {
    form.intakeDate.On? && form.intakeDate.day <= today && form.commentLength <= 255
  }

  /** No error is reported: every GOODS item has a good line whose total equals the donated quantity. */
  predicate EntryAccepted(cfg: Config, today: Day, goods: map<ItemId, DonationItem>, form: EntryForm)
  {
    var lines := EntryLines(cfg, today, goods, form);
    && EntryHeaderOk(today, form)
    && forall i :: i in goods ==> i in lines && lines[i].q.Total() == goods[i].qty
  }

  /** CHECK constraints of dnintake_item that the handlers do not check themselves. */
  predicate LineConstraints(cfg: Config, l: Line)
  {
    && (l.expiry.Some? ==> l.batchDate <= l.expiry.value)
    && (cfg.exactCost ==> 100 * l.extCost == l.q.Total() * l.unitValue)
  }

  predicate LinesStorable(cfg: Config, lines: map<ItemId, Line>)
  {
    forall i :: i in lines ==> LineConstraints(cfg, lines[i])
  }

  /** An intake that does not exist yet, or that has not been verified. */
  predicate Reenterable(intakes: map<IntakeKey, Intake>, key: IntakeKey)
  {
    key in intakes ==> intakes[key].status != Posted
  }

  /** Everything an entry needs besides a good form. */
  predicate OpenForEntry(cfg: Config, db: Db, key: IntakeKey)
  {
    && key.warehouse in cfg.warehouses && cfg.warehouses[key.warehouse]
    && key.donation in db.donations && db.donations[key.donation].status != Entered
    && Reenterable(db.intakes, key)
  }

  /** The guards of the entry handler, evaluated on what it reads first. */
  predicate EntryGuards(cfg: Config, db: Db, key: IntakeKey)
  {
    OpenForEntry(cfg, db, key) && db.donations[key.donation].status == Verified
  }

  predicate EntryStorable(cfg: Config, today: Day, goods: map<ItemId, DonationItem>, form: EntryForm)
  {
    EntryAccepted(cfg, today, goods, form) && LinesStorable(cfg, EntryLines(cfg, today, goods, form))
  }

  /**
    The commit of an entry. The handler has read the donation with status V before; by the time of
    the commit it may have become P, so all that is certain is that it has left E.
   */
  predicate CanSave(cfg: Config, db: Db, key: IntakeKey, today: Day, form: EntryForm)
  {
    OpenForEntry(cfg, db, key) && EntryStorable(cfg, today, GoodsOf(cfg, db.donations[key.donation]), form)
  }

  /** Saving replaces every line of the intake; stock is not touched. */
  function CommitEntry(db: Db, key: IntakeKey, draft: bool, lines: map<ItemId, Line>): Db
  {
    var version := if key in db.intakes then db.intakes[key].version + 1 else 1;
    db.(intakes := db.intakes[key := Intake(if draft then Draft else Submitted, version, lines)])
  }

  function Save(cfg: Config, db: Db, key: IntakeKey, today: Day, form: EntryForm): Db
  {
    if !CanSave(cfg, db, key, today, form) then db
    else CommitEntry(db, key, form.draft, EntryLines(cfg, today, GoodsOf(cfg, db.donations[key.donation]), form))
  }

  // ----- Verification -----

  const UNCHANGED := VerifyLine("", NoDate, NoDate, Absent, Absent)

  /** An item whose fields are all missing from the form keeps what was entered. */
  function FormLine(form: VerifyForm, i: ItemId): VerifyLine
  {
    if i in form then form[i] else UNCHANGED
  }

  /** A missing field keeps the entered quantity; an emptied one counts as zero. */
  function Amended(f: NumField, entered: int): Option<int>
  {
    if f.Absent? then Some(entered) else Amount(f)
  }

  /** Reclassification: the verifier sets defective and expired, and usable is what remains of the total. */
  function VerifyQuantities(l: Line, donated: Option<DonationItem>, f: VerifyLine): Result<Quantities>
  {
    var d, x := Amended(f.defective, l.q.defective), Amended(f.expired, l.q.expired);
    if d.None? || x.None? then Err(BadQuantity)
    else if d.value < 0 || x.value < 0 then Err(NegativeQuantity)
    else if donated.None? then Err(DonationItemMissing)
    else if donated.value.qty <= 0 then Err(DonationQuantityZero)
    else if l.q.Total() <= 0 then Err(IntakeQuantityZero)
    else if d.value + x.value > l.q.Total() then Err(DeductionsExceedIntake)
    else if d.value + x.value > donated.value.qty then Err(DeductionsExceedDonation)
    else if l.q.Total() - d.value - x.value <= 0 then Err(ZeroUsable)
    else Ok(Quantities(l.q.Total() - d.value - x.value, d.value, x.value))
  }

  function VerifyBatchDate(today: Day, l: Line, f: VerifyLine): Result<Day>
  {
    match f.batchDate
    case NoDate => Ok(l.batchDate)
    case BadDate => Err(BadBatchDate)
    case On(d) => if d > today then Err(FutureBatchDate) else Ok(d)
  }

  function VerifyExpiry(canExpire: bool, today: Day, l: Line, f: VerifyLine, batchDate: Day): Result<Option<Day>>
  {
    match f.expiry
    case NoDate => Ok(l.expiry)
    case BadDate => Err(BadExpiry)
    case On(d) =>
      if canExpire && d < today then Err(ExpiryPast)
      else if d < batchDate then Err(ExpiryBeforeBatch)
      else Ok(Some(d))
  }

  function CheckVerifyLine(
    canExpire: bool, today: Day, l: Line, donated: Option<DonationItem>, f: VerifyLine): Result<Line>
  {
    var q := VerifyQuantities(l, donated, f);
    if q.Err? then Err(q.error) else
    var b := VerifyBatchDate(today, l, f);
    if b.Err? then Err(b.error) else
    var e := VerifyExpiry(canExpire, today, l, f, b.value);
    if e.Err? then Err(e.error)
    else
      Ok(Line(if f.batchNo == "" then l.batchNo else f.batchNo, b.value, e.value, l.unitValue,
              ExtCost(l.q.Total(), l.unitValue), q.value, VerifiedItem))
  }

  function VerifyResult(cfg: Config, today: Day, lines: map<ItemId, Line>, items: map<ItemId, DonationItem>,
                        form: VerifyForm, i: ItemId): Result<Line>
    requires i in lines
  {
    CheckVerifyLine(i in cfg.items && cfg.items[i].canExpire, today, lines[i],
                    if i in items then Some(items[i]) else None, FormLine(form, i))
  }

  function VerifiedLines(cfg: Config, today: Day, lines: map<ItemId, Line>, items: map<ItemId, DonationItem>,
                         form: VerifyForm): map<ItemId, Line>
  {
    map i | i in lines && VerifyResult(cfg, today, lines, items, form, i).Ok? ::
      VerifyResult(cfg, today, lines, items, form, i).value
  }

  predicate VerifyAccepted(cfg: Config, today: Day, lines: map<ItemId, Line>, items: map<ItemId, DonationItem>,
                           form: VerifyForm)
  {
    forall i :: i in lines ==> VerifyResult(cfg, today, lines, items, form, i).Ok?
  }

  // ----- Posting to stock -----

  /** The earlier of two expiry dates, where None means that none is recorded. */
  function Earlier(a: Option<Day>, b: Option<Day>): Option<Day>
  {
    if b.Some? && (a.None? || b.value < a.value) then b else a
  }

  /** Add a line to its batch row, or create the row. */
  function Merge(batches: map<BatchKey, Batch>, key: BatchKey, l: Line): Batch
  {
    if key in batches then
      batches[key].(q := batches[key].q.Plus(l.q), expiry := Earlier(batches[key].expiry, l.expiry))
    else Batch(l.q, l.expiry, l.batchDate, l.unitValue)
  }

  function Raise(inventory: map<StockKey, Quantities>, key: StockKey, q: Quantities): Quantities
  {
    if key in inventory then inventory[key].Plus(q) else q
  }

  /** The batch row that a line is posted to is the one that carries its batch number. */
  predicate Touches(w: WarehouseId, lines: map<ItemId, Line>, k: BatchKey)
  {
    k.warehouse == w && k.item in lines && lines[k.item].batchNo == k.batchNo
  }

  function PostBatches(batches: map<BatchKey, Batch>, w: WarehouseId, lines: map<ItemId, Line>): map<BatchKey, Batch>
  {
    map k | k in batches.Keys + (set i | i in lines :: BatchKey(w, i, lines[i].batchNo)) ::
      if Touches(w, lines, k) then Merge(batches, k, lines[k.item]) else batches[k]
  }

  function PostInventory(
    inventory: map<StockKey, Quantities>, w: WarehouseId, lines: map<ItemId, Line>): map<StockKey, Quantities>
  {
    map s | s in inventory.Keys + (set i | i in lines :: StockKey(w, i)) ::
      if s.warehouse == w && s.item in lines then Raise(inventory, s, lines[s.item].q) else inventory[s]
  }

  /** All lines of an intake posted to both stock tables of one warehouse. */
  function Post(stock: Stock, w: WarehouseId, lines: map<ItemId, Line>): Stock
  {
    Stock(PostBatches(stock.batches, w, lines), PostInventory(stock.inventory, w, lines))
  }

  predicate LinesVerifiable(
    cfg: Config, today: Day, lines: map<ItemId, Line>, items: map<ItemId, DonationItem>, form: VerifyForm)
  {
    VerifyAccepted(cfg, today, lines, items, form) && LinesStorable(cfg, VerifiedLines(cfg, today, lines, items, form))
  }

  predicate HasRows(db: Db, key: IntakeKey)
  {
    key in db.intakes && key.donation in db.donations
  }

  /** The intake is submitted; its donation's status is not looked at again. */
  predicate Awaiting(db: Db, key: IntakeKey)
  {
    HasRows(db, key) && db.intakes[key].status == Submitted
  }

  predicate CanVerifyIntake(cfg: Config, db: Db, key: IntakeKey, today: Day, form: VerifyForm)
  {
    Awaiting(db, key) &&
    LinesVerifiable(cfg, today, db.intakes[key].lines, db.donations[key.donation].items, form)
  }

  /** One atomic commit: intake V with its new lines, both stock tables raised, donation P, one journal entry. */
  function CommitPosting(db: Db, key: IntakeKey, lines: map<ItemId, Line>): Db
    requires HasRows(db, key)
  {
    var n, d := db.intakes[key], db.donations[key.donation];
    Db(db.donations[key.donation := Donation(Processed, d.version + 1, d.items)],
       db.intakes[key := Intake(Posted, n.version + 1, lines)],
       Post(db.stock, key.warehouse, lines),
       db.journal + [Posting(key, n.version, lines)])
  }

  function VerifyIntake(cfg: Config, db: Db, key: IntakeKey, today: Day, form: VerifyForm): Db
  {
    if !CanVerifyIntake(cfg, db, key, today, form) then db
    else CommitPosting(db, key,
        VerifiedLines(cfg, today, db.intakes[key].lines, db.donations[key.donation].items, form))
  }

  // ----- Properties of single lines -----

  /** What every stored line satisfies, whatever its intake's status. */
  ghost predicate LineOk(cfg: Config, l: Line, donated: DonationItem)
  {
    && l.q.Total() == donated.qty
    && 0 < l.q.usable && 0 <= l.q.defective && 0 <= l.q.expired
    && 0 < l.unitValue
    && l.extCost == ExtCost(l.q.Total(), l.unitValue)
    && LineConstraints(cfg, l)
  }

  /**
    Verification only reclassifies: the line's total, unit value and extended cost stay what the
    entry recorded, so the line still accounts for exactly the donated quantity.
   */
  lemma VerificationReclassifies(
    cfg: Config, canExpire: bool, today: Day, l: Line, donated: DonationItem, f: VerifyLine)
    requires LineOk(cfg, l, donated)
    requires CheckVerifyLine(canExpire, today, l, Some(donated), f).Ok?
    ensures var v := CheckVerifyLine(canExpire, today, l, Some(donated), f).value;
      && v.q.Total() == l.q.Total() && v.unitValue == l.unitValue && v.extCost == l.extCost
      && 0 < v.q.usable && 0 <= v.q.defective && 0 <= v.q.expired
      && (LineConstraints(cfg, v) ==> LineOk(cfg, v, donated))
  {
  }

  /**
    On a stored line the quantity checks of verification come down to one: the defective and
    expired amounts are not negative and leave something usable. The three checks against the
    donation never fire.
   */
  lemma VerifyQuantitiesExact(cfg: Config, l: Line, donated: DonationItem, f: VerifyLine)
    requires LineOk(cfg, l, donated)
    ensures VerifyQuantities(l, Some(donated), f).Ok? <==>
              var d, x := Amended(f.defective, l.q.defective), Amended(f.expired, l.q.expired);
              d.Some? && x.Some? && 0 <= d.value && 0 <= x.value && d.value + x.value < donated.qty
    ensures VerifyQuantities(l, Some(donated), f).Err? ==>
              VerifyQuantities(l, Some(donated), f).error in
                {BadQuantity, NegativeQuantity, DeductionsExceedIntake, ZeroUsable}
  {
  }

  /** An accepted entry line is a well-formed line except for the constraints only the database checks. */
  lemma EntryLineOk(cfg: Config, info: ItemInfo, today: Day, l: EntryLine, donated: DonationItem)
    requires CheckEntryLine(info, today, l).Ok?
    requires CheckEntryLine(info, today, l).value.q.Total() == donated.qty
    requires LineConstraints(cfg, CheckEntryLine(info, today, l).value)
    ensures LineOk(cfg, CheckEntryLine(info, today, l).value, donated)
  {
  }
}

/**
  What intake forms mean: which entered and verified lines are accepted, what is stored for what was
  typed, what a verification adds to stock, and what becomes of drafts.
 */
module IntakeForms {
  import opened Common
  import opened Tables
  import opened Intakes
  import opened Ledger
  import opened Runs
  import F = Feasibility

  // ----- Entry lines -----

  /** The amount that an entry field stands for: the number typed, zero if there is none. */
  predicate Typed(f: NumField, stored: int)
  {
    f == Num(stored) || ((f.Absent? || f.Blank?) && stored == 0)
  }

  /** A batch is typed with number and date; only an unbatched item may do without both. */
  predicate BatchTyped(info: ItemInfo, today: Day, l: EntryLine)
  {
    || (l.batchNo != "" && l.batchDate.On? && l.batchDate.day <= today)
    || (l.batchNo == "" && l.batchDate.NoDate? && !info.isBatched)
  }

  /** A perishable item needs an expiry date, not in the past and not before the batch was made. */
  predicate ExpiryTyped(info: ItemInfo, today: Day, l: EntryLine)
  {
    info.canExpire ==>
      && l.expiry.On? && today <= l.expiry.day
      && (l.batchDate.On? ==> l.batchDate.day <= l.expiry.day)
  }

  predicate QuantitiesTyped(l: EntryLine)
  {
    && (l.usable.Num? && 0 < l.usable.n)
    && (l.defective.Num? ==> 0 <= l.defective.n) && !l.defective.Malformed?
    && (l.expired.Num? ==> 0 <= l.expired.n) && !l.expired.Malformed?
  }

  /** Exactly these lines are accepted. */
  lemma EntryLineAcceptedIff(info: ItemInfo, today: Day, l: EntryLine)
    ensures CheckEntryLine(info, today, l).Ok? <==>
              && BatchTyped(info, today, l) && ExpiryTyped(info, today, l) && l.hasUom && QuantitiesTyped(l)
              && l.unitValue.Num? && 0 < l.unitValue.n
  {
  }

  predicate Negative(f: NumField)
  {
    f.Num? && f.n < 0
  }

  /** What is wrong with an entry line that is refused for a reason. */
  predicate EntryFault(info: ItemInfo, today: Day, l: EntryLine, e: LineError)
  {
    match e
    case BatchNoRequired => l.batchNo == "" && (info.isBatched || !l.batchDate.NoDate?)
    case BatchDateRequired => l.batchDate.NoDate? && (info.isBatched || l.batchNo != "")
    case BadBatchDate => l.batchDate.BadDate?
    case FutureBatchDate => l.batchDate.On? && today < l.batchDate.day
    case ExpiryRequired => info.canExpire && l.expiry.NoDate?
    case BadExpiry => info.canExpire && l.expiry.BadDate?
    case ExpiryPast => info.canExpire && l.expiry.On? && l.expiry.day < today
    case ExpiryBeforeBatch => info.canExpire && l.expiry.On? && l.batchDate.On? && l.expiry.day < l.batchDate.day
    case UomRequired => !l.hasUom
    case BadQuantity => Malformed in {l.usable, l.defective, l.expired}
    case NegativeQuantity => Negative(l.usable) || Negative(l.defective) || Negative(l.expired)
    case ZeroUsable => l.usable.Absent? || l.usable.Blank? || l.usable == Num(0)
    case BadUnitCost => l.unitValue.Malformed?
    case UnitCostNotPositive => !(l.unitValue.Num? && 0 < l.unitValue.n) && !l.unitValue.Malformed?
    case _ => false
  }

  lemma EntryFaultTrue(info: ItemInfo, today: Day, l: EntryLine)
    requires CheckEntryLine(info, today, l).Err?
    ensures EntryFault(info, today, l, CheckEntryLine(info, today, l).error)
  {
  }

  /** A stored line shows the form's line field by field. */
  predicate ShowsEntry(info: ItemInfo, today: Day, l: EntryLine, stored: Line)
  {
    && Typed(l.usable, stored.q.usable) && Typed(l.defective, stored.q.defective) && Typed(l.expired, stored.q.expired)
    && l.unitValue == Num(stored.unitValue)
    && (if l.batchNo != "" then stored.batchNo == l.batchNo && l.batchDate == On(stored.batchDate)
        else stored.batchNo == info.code && stored.batchDate == today)
    && (match l.expiry
        case On(d) => stored.expiry == Some(d)
        case _ => stored.expiry == None)
    && stored.status == PendingItem
  }

  lemma EntryLineShows(info: ItemInfo, today: Day, l: EntryLine)
    requires CheckEntryLine(info, today, l).Ok?
    ensures ShowsEntry(info, today, l, CheckEntryLine(info, today, l).value)
  {
  }

  /**
    A saved entry: a line for every GOODS item and no other, each showing what was typed for it; a draft
    is a draft and anything else is submitted; everything else is as before.
   */
  lemma SavedEntryShows(cfg: Config, db: Db, key: IntakeKey, today: Day, form: EntryForm)
    requires CanSave(cfg, db, key, today, form)
    ensures var db' := Save(cfg, db, key, today, form);
      && db' == db.(intakes := db'.intakes)
      && key in db'.intakes && db'.intakes == db.intakes[key := db'.intakes[key]]
      && db'.intakes[key].status == (if form.draft then Draft else Submitted)
      && db'.intakes[key].lines.Keys == GoodsOf(cfg, db.donations[key.donation]).Keys
      && forall i :: i in db'.intakes[key].lines ==>
           i in cfg.items && i in form.lines
             && ShowsEntry(cfg.items[i], today, form.lines[i], db'.intakes[key].lines[i])
  {
    var goods := GoodsOf(cfg, db.donations[key.donation]);
    var lines := EntryLines(cfg, today, goods, form);
    assert Save(cfg, db, key, today, form) == CommitEntry(db, key, form.draft, lines);
    forall i | i in lines
      ensures i in cfg.items && i in form.lines && ShowsEntry(cfg.items[i], today, form.lines[i], lines[i])
    {
      EntryLineShows(cfg.items[i], today, form.lines[i]);
    }
  }

  /** An entry changes something only for an eligible warehouse, a donation that left E, and an open intake. */
  lemma EntryRefusedUnless(cfg: Config, db: Db, key: IntakeKey, today: Day, form: EntryForm)
    requires Save(cfg, db, key, today, form) != db
    ensures key.warehouse in cfg.warehouses && cfg.warehouses[key.warehouse]
    ensures key.donation in db.donations && db.donations[key.donation].status in {Verified, Processed}
    ensures key in db.intakes ==> db.intakes[key].status in {Draft, Submitted}
    ensures form.intakeDate.On? && form.intakeDate.day <= today && form.commentLength <= 255
  {
  }

  /** In every reachable state no line expires before its batch was made. */
  lemma LinesExpireLater(cfg: Config, db: Db, actions: seq<Action>, key: IntakeKey, i: ItemId)
    requires Valid(cfg, db)
    requires key in Run(cfg, db, actions).intakes && i in Run(cfg, db, actions).intakes[key].lines
    ensures var l := Run(cfg, db, actions).intakes[key].lines[i]; l.expiry.Some? ==> l.batchDate <= l.expiry.value
  {
    var db' := Run(cfg, db, actions);
    RunKeepsValid(cfg, db, actions);
    assert IntakeOk(cfg, db'.donations, key, db'.intakes[key]);
    assert LineOk(cfg, db'.intakes[key].lines[i], db'.donations[key.donation].items[i]);
  }

  // ----- Drafts -----

  /** What is saved can be verified by some form exactly if it is not a draft; the untouched form then will do. */
  lemma SavedVerifiableIff(cfg: Config, db: Db, key: IntakeKey, today: Day, form: EntryForm, day: Day)
    requires Valid(cfg, db) && CanSave(cfg, db, key, today, form)
    ensures var db' := Save(cfg, db, key, today, form);
      && (CanVerifyIntake(cfg, db', key, day, map[]) <==> !form.draft)
      && (form.draft ==> forall verify :: VerifyIntake(cfg, db', key, day, verify) == db')
  {
    SavedEntryShows(cfg, db, key, today, form);
    if !form.draft {
      SaveKeepsValid(cfg, db, key, today, form);
      F.UntouchedVerificationAccepted(cfg, Save(cfg, db, key, today, form), key, day);
    }
  }

  /** The form of the last entry of an intake that a run saves. */
  function LastEntry(cfg: Config, db: Db, actions: seq<Action>, key: IntakeKey): Option<EntryForm>
  {
    if actions == [] then None
    else
      var n := |actions| - 1;
      var a := actions[n];
      if a.SaveIntake? && a.key == key
        && CanSave(cfg, Run(cfg, db, actions[..n]), key, a.today, a.entry) then Some(a.entry)
      else LastEntry(cfg, db, actions[..n], key)
  }

  /** After a run an intake is a draft exactly if it was last entered as one; without entries it is as before. */
  ghost predicate StatusFollows(before: map<IntakeKey, Intake>, after: map<IntakeKey, Intake>, key: IntakeKey,
                                last: Option<EntryForm>)
  {
    match last
    case Some(form) => key in after && (after[key].status == Draft <==> form.draft)
    case None =>
      (key in after <==> key in before)
        && (key in before ==> (after[key].status == Draft <==> before[key].status == Draft))
  }

  /** A step other than a saved entry of the intake neither makes it a draft nor ends its being one. */
  ghost predicate DraftStays(before: map<IntakeKey, Intake>, after: map<IntakeKey, Intake>, key: IntakeKey)
  {
    (key in after <==> key in before)
      && (key in before ==> (after[key].status == Draft <==> before[key].status == Draft))
  }

  lemma SaveElsewhere(cfg: Config, db: Db, a: Action, key: IntakeKey)
    requires a.SaveIntake? && !(a.key == key && CanSave(cfg, db, key, a.today, a.entry))
    ensures DraftStays(db.intakes, Next(cfg, db, a).intakes, key)
  {
    assert Next(cfg, db, a) == Save(cfg, db, a.key, a.today, a.entry);
    if CanSave(cfg, db, a.key, a.today, a.entry) {
      SavedEntryShows(cfg, db, a.key, a.today, a.entry);
    }
  }

  lemma PostStays(cfg: Config, db: Db, key: IntakeKey, today: Day, form: VerifyForm, k: IntakeKey)
    ensures DraftStays(db.intakes, VerifyIntake(cfg, db, key, today, form).intakes, k)
  {
    if CanVerifyIntake(cfg, db, key, today, form) {
      var lines := VerifiedLines(cfg, today, db.intakes[key].lines, db.donations[key.donation].items, form);
      CommitStays(db, key, lines, k);
    }
  }

  lemma CommitStays(db: Db, key: IntakeKey, lines: map<ItemId, Line>, k: IntakeKey)
    requires Awaiting(db, key)
    ensures DraftStays(db.intakes, CommitPosting(db, key, lines).intakes, k)
  {
  }

  lemma OtherStays(cfg: Config, db: Db, a: Action, key: IntakeKey)
    requires Valid(cfg, db) && !(a.SaveIntake? && a.key == key && CanSave(cfg, db, key, a.today, a.entry))
    ensures DraftStays(db.intakes, Next(cfg, db, a).intakes, key)
  {
    if a.SaveIntake? {
      SaveElsewhere(cfg, db, a, key);
    } else if a.PostIntake? {
      assert Next(cfg, db, a) == VerifyIntake(cfg, db, a.key, a.today, a.verify);
      PostStays(cfg, db, a.key, a.today, a.verify, key);
    } else {
      DonationActionStays(cfg, db, a);
    }
  }

  lemma StaysFollowing(
    first: map<IntakeKey, Intake>, before: map<IntakeKey, Intake>, after: map<IntakeKey, Intake>, key: IntakeKey,
    last: Option<EntryForm>)
    requires StatusFollows(first, before, key, last) && DraftStays(before, after, key)
    ensures StatusFollows(first, after, key, last)
  {
  }

  lemma SaveFollows(cfg: Config, first: map<IntakeKey, Intake>, db: Db, a: Action)
    requires a.SaveIntake? && CanSave(cfg, db, a.key, a.today, a.entry)
    ensures StatusFollows(first, Next(cfg, db, a).intakes, a.key, Some(a.entry))
  {
    assert Next(cfg, db, a) == Save(cfg, db, a.key, a.today, a.entry);
    SavedEntryShows(cfg, db, a.key, a.today, a.entry);
  }

  /** One more action, and the last entry with it. */
  lemma FollowsNext(
    cfg: Config, first: map<IntakeKey, Intake>, db: Db, a: Action, key: IntakeKey, last: Option<EntryForm>)
    requires Valid(cfg, db) && StatusFollows(first, db.intakes, key, last)
    ensures var saved := a.SaveIntake? && a.key == key && CanSave(cfg, db, key, a.today, a.entry);
      StatusFollows(first, Next(cfg, db, a).intakes, key, if saved then Some(a.entry) else last)
  {
    if a.SaveIntake? && a.key == key && CanSave(cfg, db, key, a.today, a.entry) {
      SaveFollows(cfg, first, db, a);
    } else {
      OtherStays(cfg, db, a, key);
      StaysFollowing(first, db.intakes, Next(cfg, db, a).intakes, key, last);
    }
  }

  /** Over every run: an intake is a draft exactly if its last saved entry was one, so it is V only if it was not. */
  lemma {:induction false} LastEntryDecides(cfg: Config, db: Db, actions: seq<Action>, key: IntakeKey)
    requires Valid(cfg, db)
    ensures StatusFollows(db.intakes, Run(cfg, db, actions).intakes, key, LastEntry(cfg, db, actions, key))
  {
    if actions != [] {
      var n := |actions| - 1;
      LastEntryDecides(cfg, db, actions[..n], key);
      RunKeepsValid(cfg, db, actions[..n]);
      FollowsNext(cfg, db.intakes, Run(cfg, db, actions[..n]), actions[n], key, LastEntry(cfg, db, actions[..n], key));
    }
  }

  // ----- Verified lines -----

  /** The amount that a verification field stands for: the number typed, zero if emptied, as entered if absent. */
  predicate Retyped(f: NumField, entered: int, stored: int)
  {
    f == Num(stored) || (f.Blank? && stored == 0) || (f.Absent? && stored == entered)
  }

  predicate DateRetyped(f: DateField, entered: Option<Day>, stored: Option<Day>)
  {
    match f
    case On(d) => stored == Some(d)
    case NoDate => stored == entered
    case BadDate => false
  }

  /** A verified line shows what was typed over what was entered; usable is what the two amounts leave. */
  predicate ShowsVerified(l: Line, f: VerifyLine, v: Line)
  {
    && Retyped(f.defective, l.q.defective, v.q.defective) && Retyped(f.expired, l.q.expired, v.q.expired)
    && v.q.usable == l.q.usable + l.q.defective + l.q.expired - v.q.defective - v.q.expired
    && v.batchNo == (if f.batchNo != "" then f.batchNo else l.batchNo)
    && DateRetyped(f.batchDate, Some(l.batchDate), Some(v.batchDate))
    && DateRetyped(f.expiry, l.expiry, v.expiry)
    && v.unitValue == l.unitValue && v.status == VerifiedItem
  }

  lemma VerifiedLineShows(canExpire: bool, today: Day, l: Line, donated: Option<DonationItem>, f: VerifyLine)
    requires CheckVerifyLine(canExpire, today, l, donated, f).Ok?
    ensures ShowsVerified(l, f, CheckVerifyLine(canExpire, today, l, donated, f).value)
  {
  }

  /** Typed dates have to parse; a batch is not made in the future, and does not expire before it is made. */
  predicate DatesRetyped(canExpire: bool, today: Day, l: Line, f: VerifyLine)
  {
    && !f.batchDate.BadDate? && (f.batchDate.On? ==> f.batchDate.day <= today)
    && !f.expiry.BadDate?
    && (f.expiry.On? ==>
          && (canExpire ==> today <= f.expiry.day)
          && (if f.batchDate.On? then f.batchDate.day else l.batchDate) <= f.expiry.day)
  }

  /** Exactly these changes to a stored line are accepted. */
  lemma VerifiedLineAcceptedIff(cfg: Config, canExpire: bool, today: Day, l: Line, donated: DonationItem, f: VerifyLine)
    requires LineOk(cfg, l, donated)
    ensures CheckVerifyLine(canExpire, today, l, Some(donated), f).Ok? <==>
              && DatesRetyped(canExpire, today, l, f)
              && exists d, x :: Retyped(f.defective, l.q.defective, d) && Retyped(f.expired, l.q.expired, x)
                   && 0 <= d && 0 <= x && d + x < donated.qty
  {
    VerifyQuantitiesExact(cfg, l, donated, f);
    var d, x := Amended(f.defective, l.q.defective), Amended(f.expired, l.q.expired);
    if d.Some? && x.Some? {
      assert Retyped(f.defective, l.q.defective, d.value) && Retyped(f.expired, l.q.expired, x.value);
    }
  }

  /** What is wrong with a change that a verification refuses for a reason. */
  ghost predicate VerifyFault(canExpire: bool, today: Day, l: Line, donated: DonationItem, f: VerifyLine, e: LineError)
  {
    match e
    case BadQuantity => f.defective.Malformed? || f.expired.Malformed?
    case NegativeQuantity => Negative(f.defective) || Negative(f.expired)
    case DeductionsExceedIntake => LeavesLess(l, f, donated.qty, 0)
    case ZeroUsable => LeavesLess(l, f, donated.qty, 1)
    case BadBatchDate => f.batchDate.BadDate?
    case FutureBatchDate => f.batchDate.On? && today < f.batchDate.day
    case BadExpiry => f.expiry.BadDate?
    case ExpiryPast => canExpire && f.expiry.On? && f.expiry.day < today
    case ExpiryBeforeBatch =>
      f.expiry.On? && f.expiry.day < if f.batchDate.On? then f.batchDate.day else l.batchDate
    case _ => false
  }

  /** The amounts that a verification means leave less than `rest` of the donated quantity. */
  ghost predicate LeavesLess(l: Line, f: VerifyLine, quantity: int, rest: int)
  {
    exists d, x :: Retyped(f.defective, l.q.defective, d) && Retyped(f.expired, l.q.expired, x)
      && quantity - d - x < rest
  }

  lemma VerifyFaultTrue(cfg: Config, canExpire: bool, today: Day, l: Line, donated: DonationItem, f: VerifyLine)
    requires LineOk(cfg, l, donated)
    requires CheckVerifyLine(canExpire, today, l, Some(donated), f).Err?
    ensures VerifyFault(canExpire, today, l, donated, f, CheckVerifyLine(canExpire, today, l, Some(donated), f).error)
  {
    var d, x := Amended(f.defective, l.q.defective), Amended(f.expired, l.q.expired);
    if d.Some? && x.Some? {
      assert Retyped(f.defective, l.q.defective, d.value) && Retyped(f.expired, l.q.expired, x.value);
    }
  }

  /** The line that a verification leaves for an item, whether or not the form has fields for it. */
  predicate LineVerified(l: Line, form: VerifyForm, i: ItemId, v: Line)
  {
    if i in form then ShowsVerified(l, form[i], v)
    else v.q == l.q && v.batchNo == l.batchNo && v.batchDate == l.batchDate && v.expiry == l.expiry
         && v.unitValue == l.unitValue && v.status == VerifiedItem
  }

  lemma VerifiedLinesShow(
    cfg: Config, today: Day, lines: map<ItemId, Line>, items: map<ItemId, DonationItem>, form: VerifyForm, i: ItemId)
    requires VerifyAccepted(cfg, today, lines, items, form) && i in lines
    ensures var after := VerifiedLines(cfg, today, lines, items, form);
      i in after && LineVerified(lines[i], form, i, after[i])
  {
    var canExpire := i in cfg.items && cfg.items[i].canExpire;
    assert VerifyResult(cfg, today, lines, items, form, i).Ok?;
    VerifiedLineShows(canExpire, today, lines[i], if i in items then Some(items[i]) else None, FormLine(form, i));
  }

  /** The columns of the two stock rows of an item at a warehouse grow by the given quantities. */
  ghost predicate StockGrows(before: Stock, after: Stock, w: WarehouseId, i: ItemId, batchNo: string, q: Quantities)
  {
    forall c ::
      && StockCol(after.inventory, StockKey(w, i), c) == StockCol(before.inventory, StockKey(w, i), c) + q.Of(c)
      && BatchCol(after.batches, BatchKey(w, i, batchNo), c) ==
          BatchCol(before.batches, BatchKey(w, i, batchNo), c) + q.Of(c)
  }

  lemma PostGrows(stock: Stock, w: WarehouseId, lines: map<ItemId, Line>, i: ItemId)
    requires i in lines
    ensures StockGrows(stock, Post(stock, w, lines), w, i, lines[i].batchNo, lines[i].q)
  {
    var k := BatchKey(w, i, lines[i].batchNo);
    PostBatchesAt(stock.batches, w, lines, k);
    forall c
      ensures StockCol(PostInventory(stock.inventory, w, lines), StockKey(w, i), c) ==
                StockCol(stock.inventory, StockKey(w, i), c) + lines[i].q.Of(c)
    {
      PostInventoryCol(stock.inventory, w, lines, StockKey(w, i), c);
    }
  }

  /** Stock rows that no line is posted to stay as they are. */
  lemma PostLeaves(stock: Stock, w: WarehouseId, lines: map<ItemId, Line>)
    ensures forall s: StockKey, c :: !(s.warehouse == w && s.item in lines) ==>
              StockCol(PostInventory(stock.inventory, w, lines), s, c) == StockCol(stock.inventory, s, c)
    ensures forall k :: !Touches(w, lines, k) ==>
              (k in PostBatches(stock.batches, w, lines) <==> k in stock.batches)
              && (k in stock.batches ==> PostBatches(stock.batches, w, lines)[k] == stock.batches[k])
  {
    forall s: StockKey, c | !(s.warehouse == w && s.item in lines)
      ensures StockCol(PostInventory(stock.inventory, w, lines), s, c) == StockCol(stock.inventory, s, c)
    {
      PostInventoryCol(stock.inventory, w, lines, s, c);
    }
    forall k | !Touches(w, lines, k)
      ensures (k in PostBatches(stock.batches, w, lines) <==> k in stock.batches)
              && (k in stock.batches ==> PostBatches(stock.batches, w, lines)[k] == stock.batches[k])
    {
      PostBatchesAt(stock.batches, w, lines, k);
    }
  }

  /**
    An accepted verification, from the form to the stock tables: for every line, the intake shows what
    was typed over what was entered, and the item's stock row and the batch row with the stored number
    grow by exactly the stored usable, defective and expired amounts.
   */
  lemma VerificationPosts(cfg: Config, db: Db, key: IntakeKey, today: Day, form: VerifyForm, i: ItemId)
    requires CanVerifyIntake(cfg, db, key, today, form) && i in db.intakes[key].lines
    ensures var db' := VerifyIntake(cfg, db, key, today, form);
      && key in db'.intakes && db'.intakes[key].status == Posted && i in db'.intakes[key].lines
      && var v := db'.intakes[key].lines[i];
      && LineVerified(db.intakes[key].lines[i], form, i, v)
      && StockGrows(db.stock, db'.stock, key.warehouse, i, v.batchNo, v.q)
  {
    var lines, items := db.intakes[key].lines, db.donations[key.donation].items;
    var after := VerifiedLines(cfg, today, lines, items, form);
    VerifiedLinesShow(cfg, today, lines, items, form, i);
    PostGrows(db.stock, key.warehouse, after, i);
    CommitShows(db, key, after);
    assert VerifyIntake(cfg, db, key, today, form) == CommitPosting(db, key, after);
  }

  lemma CommitShows(db: Db, key: IntakeKey, lines: map<ItemId, Line>)
    requires Awaiting(db, key)
    ensures var db' := CommitPosting(db, key, lines);
      && key in db'.intakes && db'.intakes[key].status == Posted && db'.intakes[key].lines == lines
      && db'.stock == Post(db.stock, key.warehouse, lines)
  {
  }
}

/**
  Donation handlers as transitions: which submissions each one accepts, and the donation it
  leaves behind. A rejected submission leaves everything unchanged (the handler rolls back).
 */
module Donations {
  import opened Common
  import opened Tables

  /** One item row of a donation form. `kind` is None when the submitted type is neither GOODS nor FUNDS. */
  datatype ItemRow = ItemRow(
    itemId: ItemId, kind: Option<Kind>, qty: NumField, cost: NumField,
    hasUom: bool, hasCurrency: bool, isExisting: bool)

  /** `headerOk` and `docsOk`: the header fields and the attached documents pass their own checks. */
  datatype DonationForm = DonationForm(headerOk: bool, docsOk: bool, rows: seq<ItemRow>)

  /** Fields of the single-item forms; the location text is summarised by `hasLocation`. */
  datatype ItemForm = ItemForm(qty: NumField, hasUom: bool, hasLocation: bool, status: Option<ItemStatus>)

  /** The three forms that carry item rows check them differently. */
  datatype RowMode = Creating | Editing | Verifying

  const ONE := 100

  predicate DistinctRows(rows: seq<ItemRow>)
  {
    forall i, j :: 0 <= i < j < |rows| ==> rows[i].itemId != rows[j].itemId
  }

  /** An absent cost is 0.00; a present one has to be a number that is not negative. */
  predicate CostGiven(cost: NumField)
  {
    cost.Absent? || (cost.Num? && 0 <= cost.n)
  }

  /** The edit form clamps and defaults its amounts; the other two take them as checked. */
  function RowCost(row: ItemRow): (c: int)
    ensures 0 <= c
  {
    if row.cost.Num? && 0 <= row.cost.n then row.cost.n else 0
  }

  function RowQty(row: ItemRow): (q: int)
    ensures 0 <= q
  {
    if row.kind == Some(FUNDS) then ONE
    else if row.qty.Num? && 0 <= row.qty.n then row.qty.n
    else 0
  }

  /** The checks on one row as it is read, which do not depend on the other rows. */
  predicate RowReadable(cfg: Config, mode: RowMode, row: ItemRow)
  {
    && row.kind.Some?
    && (row.kind.value == GOODS ==> row.hasUom)
    && (row.kind.value == FUNDS ==> row.hasCurrency)
    && match mode {
         case Creating =>
           row.qty.Num? && 0 <= row.qty.n && CostGiven(row.cost)
         case Editing =>
           !row.qty.Absent? && !row.qty.Blank?
         case Verifying =>
           && row.qty.Num? && 0 <= row.qty.n && CostGiven(row.cost)
           && (row.kind.value == FUNDS ==> row.qty.n == ONE && 0 < RowCost(row))
           && (row.itemId in cfg.items ==> cfg.items[row.itemId].category == row.kind.value)
       }
  }

  /** A new FUNDS item needs a cost; this is looked at only when all rows have been read without error. */
  predicate Priced(row: ItemRow)
  {
    row.kind == Some(FUNDS) ==> 0 < RowCost(row)
  }

  predicate RowOk(cfg: Config, mode: RowMode, row: ItemRow)
  {
    RowReadable(cfg, mode, row) && (mode == Creating ==> Priced(row))
  }

  /** The row the database ends up with for one submitted row (of a form that was accepted). */
  function RowItem(row: ItemRow, status: ItemStatus, version: nat): DonationItem
  {
    var goods := row.kind != Some(FUNDS);
    DonationItem(
      if goods then GOODS else FUNDS, RowQty(row), RowCost(row), goods && row.hasUom, !goods && row.hasCurrency,
      status, version)
  }

  /** Write one row: verification marks it verified, an edit keeps the status of an existing item. */
  function PutRow(mode: RowMode, items: map<ItemId, DonationItem>, row: ItemRow): map<ItemId, DonationItem>
  {
    var id := row.itemId;
    match mode
    case Creating => items[id := RowItem(row, PendingItem, 1)]
    case Editing =>
      if !row.isExisting then items[id := RowItem(row, PendingItem, 1)]
      else if id in items then items[id := RowItem(row, items[id].status, items[id].version + 1)]
      else items
    case Verifying =>
      items[id := RowItem(row, VerifiedItem, if id in items then items[id].version + 1 else 1)]
  }

  function PutRows(mode: RowMode, items: map<ItemId, DonationItem>, rows: seq<ItemRow>): map<ItemId, DonationItem>
  {
    if rows == [] then items
    else PutRow(mode, PutRows(mode, items, rows[..|rows| - 1]), rows[|rows| - 1])
  }

  /** Items that are no longer in the form are deleted. */
  function Retained(items: map<ItemId, DonationItem>, rows: seq<ItemRow>): map<ItemId, DonationItem>
  {
    map i | i in items && (exists k :: 0 <= k < |rows| && rows[k].itemId == i) :: items[i]
  }

  /** Form-level validation common to the three row-carrying forms. */
  predicate FormOk(cfg: Config, mode: RowMode, form: DonationForm)
  {
    && form.headerOk
    && form.rows != []
    && DistinctRows(form.rows)
    && forall k :: 0 <= k < |form.rows| ==> RowOk(cfg, mode, form.rows[k])
  }

  /** What the database itself would refuse: an unknown item, or inserting an item that is there already. */
  predicate KeysOk(cfg: Config, mode: RowMode, items: map<ItemId, DonationItem>, rows: seq<ItemRow>)
  {
    forall k :: 0 <= k < |rows| ==>
      var id := rows[k].itemId;
      if mode == Editing && rows[k].isExisting then true
      else id in cfg.items && (mode == Editing ==> id !in items)
  }

  predicate CanCreate(cfg: Config, db: Db, id: DonationId, form: DonationForm)
  {
    id !in db.donations && FormOk(cfg, Creating, form) && form.docsOk && KeysOk(cfg, Creating, map[], form.rows)
  }

  function Create(cfg: Config, db: Db, id: DonationId, form: DonationForm): Db
  {
    if !CanCreate(cfg, db, id, form) then db
    else db.(donations := db.donations[id := Donation(Entered, 1, PutRows(Creating, map[], form.rows))])
  }

  predicate CanEdit(cfg: Config, db: Db, id: DonationId, version: nat, form: DonationForm)
  {
    && id in db.donations
    && db.donations[id].status == Entered
    && version == db.donations[id].version
    && FormOk(cfg, Editing, form)
    && KeysOk(cfg, Editing, db.donations[id].items, form.rows)
  }

  function Edit(cfg: Config, db: Db, id: DonationId, version: nat, form: DonationForm): Db
  {
    if !CanEdit(cfg, db, id, version, form) then db
    else
      var d := db.donations[id];
      var items := PutRows(Editing, Retained(d.items, form.rows), form.rows);
      db.(donations := db.donations[id := Donation(Entered, d.version + 1, items)])
  }

  predicate CanVerify(cfg: Config, db: Db, id: DonationId, version: Option<nat>, form: DonationForm)
  {
    && id in db.donations
    && db.donations[id].status == Entered
    && version == Some(db.donations[id].version)
    && FormOk(cfg, Verifying, form)
    && form.docsOk
    && KeysOk(cfg, Verifying, db.donations[id].items, form.rows)
  }

  function Verify(cfg: Config, db: Db, id: DonationId, version: Option<nat>, form: DonationForm): Db
  {
    if !CanVerify(cfg, db, id, version, form) then db
    else
      var d := db.donations[id];
      var items := PutRows(Verifying, Retained(d.items, form.rows), form.rows);
      db.(donations := db.donations[id := Donation(Verified, d.version + 1, items)])
  }

  predicate CanDelete(db: Db, id: DonationId)
  {
    id in db.donations && db.donations[id].status == Entered && db.donations[id].items == map[]
  }

  function Delete(db: Db, id: DonationId): Db
  {
    if !CanDelete(db, id) then db else db.(donations := db.donations - {id})
  }

  predicate Changeable(db: Db, id: DonationId)
  {
    id in db.donations && db.donations[id].status == Entered
  }

  function SetItems(db: Db, id: DonationId, items: map<ItemId, DonationItem>): Db
    requires id in db.donations
  {
    db.(donations := db.donations[id := db.donations[id].(items := items)])
  }

  /** A single item is always added as GOODS: the form has no type field and the column defaults to it. */
  predicate CanAddItem(cfg: Config, db: Db, id: DonationId, item: ItemId, form: ItemForm)
  {
    && Changeable(db, id)
    && form.qty.Num? && 0 < form.qty.n && form.hasUom && form.hasLocation
    && item !in db.donations[id].items
    && item in cfg.items
  }

  function AddItem(cfg: Config, db: Db, id: DonationId, item: ItemId, form: ItemForm): Db
  {
    if !CanAddItem(cfg, db, id, item, form) then db
    else SetItems(db, id,
        db.donations[id].items[item := DonationItem(GOODS, form.qty.n, 0, true, false, PendingItem, 1)])
  }

  /** The item row an edit would write; the database may still refuse it. */
  function EditedItem(it: DonationItem, form: ItemForm): DonationItem
    requires form.qty.Num? && form.status.Some?
  {
    it.(qty := form.qty.n, hasUom := true, status := form.status.value, version := it.version + 1)
  }

  predicate CanEditItem(db: Db, id: DonationId, item: ItemId, version: int, form: ItemForm)
  {
    && Changeable(db, id)
    && item in db.donations[id].items
    && version == db.donations[id].items[item].version
    && form.qty.Num? && 0 < form.qty.n && form.hasUom && form.hasLocation && form.status.Some?
    && ItemConstraints(EditedItem(db.donations[id].items[item], form))
  }

  function EditItem(db: Db, id: DonationId, item: ItemId, version: int, form: ItemForm): Db
  {
    if !CanEditItem(db, id, item, version, form) then db
    else SetItems(db, id, db.donations[id].items[item := EditedItem(db.donations[id].items[item], form)])
  }

  predicate CanDeleteItem(db: Db, id: DonationId, item: ItemId)
  {
    Changeable(db, id) && item in db.donations[id].items
  }

  function DeleteItem(db: Db, id: DonationId, item: ItemId): Db
  {
    if !CanDeleteItem(db, id, item) then db
    else SetItems(db, id, db.donations[id].items - {item})
  }

  // ----- What the row-carrying forms leave behind -----

  /** Accepted rows satisfy the constraints once written, FUNDS rows with quantity exactly 1.00. */
  lemma {:induction false} PutRowsOk(cfg: Config, mode: RowMode, items: map<ItemId, DonationItem>, rows: seq<ItemRow>)
    requires forall i :: i in items ==> ItemOk(cfg, i, items[i])
    requires forall k :: 0 <= k < |rows| ==> RowOk(cfg, mode, rows[k])
    requires forall k :: 0 <= k < |rows| ==> (mode == Editing && rows[k].isExisting) || rows[k].itemId in cfg.items
    ensures forall i :: i in PutRows(mode, items, rows) ==> ItemOk(cfg, i, PutRows(mode, items, rows)[i])
  {
    if rows != [] {
      PutRowsOk(cfg, mode, items, rows[..|rows| - 1]);
    }
  }

  /** After verification the items are exactly the submitted rows, all verified and of their category's type. */
  lemma {:induction false} VerifiedRowsSettle(cfg: Config, items: map<ItemId, DonationItem>, rows: seq<ItemRow>)
    requires forall k :: 0 <= k < |rows| ==> RowOk(cfg, Verifying, rows[k]) && rows[k].itemId in cfg.items
    ensures forall i :: i in PutRows(Verifying, items, rows) <==>
              i in items || exists k :: 0 <= k < |rows| && rows[k].itemId == i
    ensures forall k :: 0 <= k < |rows| && rows[k].itemId in PutRows(Verifying, items, rows) ==>
              var it := PutRows(Verifying, items, rows)[rows[k].itemId];
              it.status == VerifiedItem && it.kind == cfg.items[rows[k].itemId].category
  {
    if rows != [] {
      var n := |rows| - 1;
      VerifiedRowsSettle(cfg, items, rows[..n]);
      var before, after := PutRows(Verifying, items, rows[..n]), PutRows(Verifying, items, rows);
      assert after == PutRow(Verifying, before, rows[n]);
      forall i
        ensures i in after <==> i in items || exists k :: 0 <= k < |rows| && rows[k].itemId == i
      {
        assert i in before || i == rows[n].itemId <==> i in after;
        if exists k :: 0 <= k < |rows| && rows[k].itemId == i {
          var k :| 0 <= k < |rows| && rows[k].itemId == i;
          assert k < n ==> rows[..n][k].itemId == i;
        }
      }
      forall k | 0 <= k < |rows| && rows[k].itemId in after
        ensures after[rows[k].itemId].status == VerifiedItem &&
                after[rows[k].itemId].kind == cfg.items[rows[k].itemId].category
      {
        if rows[k].itemId != rows[n].itemId {
          assert rows[..n][k] == rows[k];
        }
      }
    }
  }

  /** An amount field as the user meant it: absent is zero. */
  predicate Means(f: NumField, n: int)
  {
    f == Num(n) || (f.Absent? && n == 0)
  }

  /**
    A stored item says what its row says. The edit form may replace an amount it cannot read by zero;
    only an existing item keeps its status, and only verification marks items verified.
   */
  predicate StoredAs(mode: RowMode, before: Option<DonationItem>, row: ItemRow, it: DonationItem)
  {
    && row.kind == Some(it.kind)
    && (if it.kind == FUNDS then it.qty == ONE else row.qty == Num(it.qty) || (mode == Editing && it.qty == 0))
    && (Means(row.cost, it.cost) || (mode == Editing && it.cost == 0))
    && (it.kind == FUNDS && mode != Editing ==> 0 < it.cost)
    && it.status ==
         (if mode == Verifying then VerifiedItem
          else if mode == Editing && row.isExisting && before.Some? then before.value.status
          else PendingItem)
  }

  /** Every row of an accepted form is stored: no other row of the form overwrites it. */
  lemma {:induction false} RowStored(
    cfg: Config, mode: RowMode, items: map<ItemId, DonationItem>, rows: seq<ItemRow>, k: nat)
    requires k < |rows| && DistinctRows(rows) && RowOk(cfg, mode, rows[k])
    requires mode == Editing && rows[k].isExisting ==> rows[k].itemId in items
    ensures var id, after := rows[k].itemId, PutRows(mode, items, rows);
      id in after && StoredAs(mode, if id in items then Some(items[id]) else None, rows[k], after[id])
  {
    var n := |rows| - 1;
    var id, before := rows[k].itemId, PutRows(mode, items, rows[..n]);
    if k < n {
      RowStored(cfg, mode, items, rows[..n], k);
      assert rows[n].itemId != id;
    } else {
      NotYetStored(mode, items, rows[..n], id);
    }
  }

  lemma {:induction false} NotYetStored(mode: RowMode, items: map<ItemId, DonationItem>, rows: seq<ItemRow>, id: ItemId)
    requires forall k :: 0 <= k < |rows| ==> rows[k].itemId != id
    ensures id in PutRows(mode, items, rows) <==> id in items
    ensures id in items ==> PutRows(mode, items, rows)[id] == items[id]
  {
    if rows != [] {
      NotYetStored(mode, items, rows[..|rows| - 1], id);
    }
  }

  /** A successful verification settles the donation, whatever it held before. */
  lemma VerifySettles(cfg: Config, db: Db, id: DonationId, version: Option<nat>, form: DonationForm)
    requires CanVerify(cfg, db, id, version, form) && DonationOk(cfg, db.donations[id])
    ensures DonationOk(cfg, Verify(cfg, db, id, version, form).donations[id])
    ensures ItemsSettled(cfg, Verify(cfg, db, id, version, form).donations[id].items)
    ensures Verify(cfg, db, id, version, form).donations[id].items.Keys ==
            set k | 0 <= k < |form.rows| :: form.rows[k].itemId
  {
    var kept := Retained(db.donations[id].items, form.rows);
    PutRowsOk(cfg, Verifying, kept, form.rows);
    VerifiedRowsSettle(cfg, kept, form.rows);
    assert form.rows[0].itemId in PutRows(Verifying, kept, form.rows);
  }

  /**
    Editing one item of a donation never succeeds on a FUNDS item: writing a unit of measure next
    to its currency breaks the constraint that ties the two columns to the type.
   */
  lemma FundsItemEditRejected(cfg: Config, db: Db, id: DonationId, item: ItemId, version: int, form: ItemForm)
    requires id in db.donations && DonationOk(cfg, db.donations[id])
    requires item in db.donations[id].items && db.donations[id].items[item].kind == FUNDS
    ensures EditItem(db, id, item, version, form) == db
  {
    assert ItemOk(cfg, item, db.donations[id].items[item]);
  }

  // ----- What the handlers leave behind -----

  predicate Listed(rows: seq<ItemRow>, i: ItemId)
  {
    exists k :: 0 <= k < |rows| && rows[k].itemId == i
  }

  function ItemBefore(items: map<ItemId, DonationItem>, i: ItemId): Option<DonationItem>
  {
    if i in items then Some(items[i]) else None
  }

  /** A donation's items after a form: none that the form does not list, and every row stored as it says. */
  ghost predicate FollowsForm(
    mode: RowMode, before: map<ItemId, DonationItem>, rows: seq<ItemRow>, after: map<ItemId, DonationItem>)
  {
    && (forall i :: i in after ==> Listed(rows, i))
    && (forall k :: 0 <= k < |rows| && !(mode == Editing && rows[k].isExisting && rows[k].itemId !in before) ==>
          rows[k].itemId in after
          && StoredAs(mode, ItemBefore(before, rows[k].itemId), rows[k], after[rows[k].itemId]))
  }

  lemma {:induction false} OnlyListed(mode: RowMode, items: map<ItemId, DonationItem>, rows: seq<ItemRow>, i: ItemId)
    requires i in PutRows(mode, items, rows)
    ensures i in items || Listed(rows, i)
  {
    if rows != [] {
      var n := |rows| - 1;
      if i == rows[n].itemId {
        assert Listed(rows, i);
      } else {
        OnlyListed(mode, items, rows[..n], i);
        if Listed(rows[..n], i) {
          var k :| 0 <= k < n && rows[..n][k].itemId == i;
          assert rows[k].itemId == i;
        }
      }
    }
  }

  lemma PutFollowsForm(cfg: Config, mode: RowMode, before: map<ItemId, DonationItem>, rows: seq<ItemRow>)
    requires DistinctRows(rows) && forall k :: 0 <= k < |rows| ==> RowOk(cfg, mode, rows[k])
    ensures FollowsForm(mode, before, rows, PutRows(mode, Retained(before, rows), rows))
  {
    var kept := Retained(before, rows);
    var after := PutRows(mode, kept, rows);
    forall i | i in after ensures Listed(rows, i) {
      OnlyListed(mode, kept, rows, i);
    }
    forall k | 0 <= k < |rows| && !(mode == Editing && rows[k].isExisting && rows[k].itemId !in before)
      ensures rows[k].itemId in after
      ensures StoredAs(mode, ItemBefore(before, rows[k].itemId), rows[k], after[rows[k].itemId])
    {
      assert ItemBefore(kept, rows[k].itemId) == ItemBefore(before, rows[k].itemId);
      RowStored(cfg, mode, kept, rows, k);
    }
  }

  /** A created donation is entered and holds exactly the rows of the form. */
  lemma CreateOutcome(cfg: Config, db: Db, id: DonationId, form: DonationForm)
    requires CanCreate(cfg, db, id, form)
    ensures var db' := Create(cfg, db, id, form);
      && db' == db.(donations := db'.donations) && id in db'.donations
      && db'.donations == db.donations[id := db'.donations[id]]
      && db'.donations[id].status == Entered
      && FollowsForm(Creating, map[], form.rows, db'.donations[id].items)
  {
    PutFollowsForm(cfg, Creating, map[], form.rows);
    assert Retained(map[], form.rows) == map[];
  }

  /** An entered donation without items is deleted; any other stays. */
  lemma DeleteOutcome(db: Db, id: DonationId)
    ensures if id in db.donations && db.donations[id].status == Entered && |db.donations[id].items| == 0
            then Delete(db, id) == db.(donations := db.donations - {id}) else Delete(db, id) == db
  {
  }

  /** A unit belongs to goods and a currency to funds. */
  predicate Measured(row: ItemRow)
  {
    (row.kind == Some(GOODS) && row.hasUom) || (row.kind == Some(FUNDS) && row.hasCurrency)
  }

  predicate NotNegative(f: NumField)
  {
    f.Num? && 0 <= f.n
  }

  /**
    Exactly these rows are accepted: edits only need some quantity; otherwise amounts are numbers that
    are not negative, and funds have a cost; at verification funds have quantity 1.00 and the type is
    that of the item's category.
   */
  lemma RowAcceptedIff(cfg: Config, mode: RowMode, row: ItemRow)
    ensures RowOk(cfg, mode, row) <==>
              && Measured(row)
              && (mode == Editing ==> row.qty.Num? || row.qty.Malformed?)
              && (mode != Editing ==>
                    && NotNegative(row.qty) && (row.cost.Absent? || NotNegative(row.cost))
                    && (row.kind == Some(FUNDS) ==> row.cost.Num? && 0 < row.cost.n))
              && (mode == Verifying ==>
                    && (row.kind == Some(FUNDS) ==> row.qty == Num(100))
                    && (row.itemId in cfg.items ==> row.kind == Some(cfg.items[row.itemId].category)))
  {
  }

  /** An edited donation stays entered; items that the form does not list go, and the listed ones follow it. */
  lemma EditOutcome(cfg: Config, db: Db, id: DonationId, version: nat, form: DonationForm)
    requires CanEdit(cfg, db, id, version, form)
    ensures var db' := Edit(cfg, db, id, version, form);
      && db' == db.(donations := db'.donations) && id in db'.donations
      && db'.donations == db.donations[id := db'.donations[id]]
      && db'.donations[id].status == Entered && db'.donations[id].version == version + 1
      && FollowsForm(Editing, db.donations[id].items, form.rows, db'.donations[id].items)
  {
    PutFollowsForm(cfg, Editing, db.donations[id].items, form.rows);
  }

  /** A verified donation is V and holds exactly the rows of the form, as verified items. */
  lemma VerifyOutcome(cfg: Config, db: Db, id: DonationId, version: Option<nat>, form: DonationForm)
    requires CanVerify(cfg, db, id, version, form)
    ensures var db' := Verify(cfg, db, id, version, form);
      && db' == db.(donations := db'.donations) && id in db'.donations
      && db'.donations == db.donations[id := db'.donations[id]]
      && db'.donations[id].status == Verified && Some(db'.donations[id].version - 1) == version
      && FollowsForm(Verifying, db.donations[id].items, form.rows, db'.donations[id].items)
  {
    PutFollowsForm(cfg, Verifying, db.donations[id].items, form.rows);
  }

  /** Only entered donations are created, changed or deleted at all, and only at the version submitted. */
  lemma OnlyEnteredChanges(cfg: Config, db: Db, id: DonationId, version: nat, form: DonationForm)
    ensures !(id in db.donations && db.donations[id].status == Entered) ==>
              && Edit(cfg, db, id, version, form) == db && Verify(cfg, db, id, Some(version), form) == db
              && Delete(db, id) == db
    ensures id in db.donations && db.donations[id].version != version ==>
              Edit(cfg, db, id, version, form) == db && Verify(cfg, db, id, Some(version), form) == db
    ensures Verify(cfg, db, id, None, form) == db
    ensures id in db.donations ==> Create(cfg, db, id, form) == db
  {
  }

  /** The item rows of a donation, outside of which a handler changed nothing. */
  ghost predicate OnlyItemChanged(before: Db, after: Db, id: DonationId, item: ItemId)
  {
    && after == before.(donations := after.donations)
    && id in before.donations && id in after.donations
    && after.donations == before.donations[id := before.donations[id].(items := after.donations[id].items)]
    && before.donations[id].status == Entered
    && forall i :: i != item ==> ItemBefore(after.donations[id].items, i) == ItemBefore(before.donations[id].items, i)
  }

  /** A single item is added with the typed quantity, as pending GOODS, if the donation does not have it. */
  lemma AddItemOutcome(cfg: Config, db: Db, id: DonationId, item: ItemId, form: ItemForm)
    requires CanAddItem(cfg, db, id, item, form)
    ensures var db' := AddItem(cfg, db, id, item, form);
      && OnlyItemChanged(db, db', id, item) && item !in db.donations[id].items && item in db'.donations[id].items
      && form.qty == Num(db'.donations[id].items[item].qty) && db'.donations[id].items[item].kind == GOODS
      && db'.donations[id].items[item].status == PendingItem && db'.donations[id].items[item].cost == 0
  {
  }

  /** An item's quantity and status become those typed; its type and cost stay. */
  lemma EditItemOutcome(db: Db, id: DonationId, item: ItemId, version: int, form: ItemForm)
    requires CanEditItem(db, id, item, version, form)
    ensures var db' := EditItem(db, id, item, version, form);
      && OnlyItemChanged(db, db', id, item) && item in db.donations[id].items && item in db'.donations[id].items
      && var was, now := db.donations[id].items[item], db'.donations[id].items[item];
      && was.version == version && now.version == version + 1
      && form.qty == Num(now.qty) && form.status == Some(now.status) && now.kind == was.kind && now.cost == was.cost
  {
  }

  lemma DeleteItemOutcome(db: Db, id: DonationId, item: ItemId)
    requires CanDeleteItem(db, id, item)
    ensures var db' := DeleteItem(db, id, item);
      OnlyItemChanged(db, db', id, item) && item in db.donations[id].items && item !in db'.donations[id].items
  {
  }
}

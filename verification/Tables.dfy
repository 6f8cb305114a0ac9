/**
  The tables behind the donation workflow, as values. Quantities, unit values and costs are
  integers in hundredths, dates are day numbers.
 */
module Tables {
  import opened Common

  type DonationId = nat
  type WarehouseId = nat
  type ItemId = nat
  type Day = int

  /** Category type of an item, and type of a donated item. */
  datatype Kind = GOODS | FUNDS

  datatype ItemInfo = ItemInfo(category: Kind, code: string, isBatched: bool, canExpire: bool)

  /**
    Master data, fixed during a run: the item catalogue and which warehouses accept donations.
    `exactCost` selects between the two schemas in the repository: the deployed one also
    requires the extended cost of an intake line to equal quantity times unit value exactly.
   */
  datatype Config = Config(items: map<ItemId, ItemInfo>, warehouses: map<WarehouseId, bool>, exactCost: bool)

  datatype ItemStatus = PendingItem | VerifiedItem

  datatype DonationItem = DonationItem(
    kind: Kind, qty: int, cost: int, hasUom: bool, hasCurrency: bool, status: ItemStatus, version: nat)

  /** E, V and P. */
  datatype DonationStatus = Entered | Verified | Processed

  datatype Donation = Donation(status: DonationStatus, version: nat, items: map<ItemId, DonationItem>)

  /** The three stock columns that intakes feed. */
  datatype Column = UsableCol | DefectiveCol | ExpiredCol

  datatype Quantities = Quantities(usable: int, defective: int, expired: int) {
    function Total(): int { usable + defective + expired }

    function Of(c: Column): int {
      match c
      case UsableCol => usable
      case DefectiveCol => defective
      case ExpiredCol => expired
    }

    function Plus(q: Quantities): Quantities {
      Quantities(usable + q.usable, defective + q.defective, expired + q.expired)
    }
  }

  /** I, C and V. */
  datatype IntakeStatus = Draft | Submitted | Posted

  datatype Line = Line(
    batchNo: string, batchDate: Day, expiry: Option<Day>, unitValue: int, extCost: int,
    q: Quantities, status: ItemStatus)

  datatype IntakeKey = IntakeKey(donation: DonationId, warehouse: WarehouseId)

  datatype Intake = Intake(status: IntakeStatus, version: nat, lines: map<ItemId, Line>)

  datatype BatchKey = BatchKey(warehouse: WarehouseId, item: ItemId, batchNo: string)

  datatype Batch = Batch(q: Quantities, expiry: Option<Day>, batchDate: Day, unitValue: int)

  datatype StockKey = StockKey(warehouse: WarehouseId, item: ItemId)

  /** Both representations of stock: rows per batch, and the aggregate per warehouse and item. */
  datatype Stock = Stock(batches: map<BatchKey, Batch>, inventory: map<StockKey, Quantities>)

  /** One entry of the audit trail that a successful intake verification leaves behind. */
  datatype Posting = Posting(key: IntakeKey, version: nat, lines: map<ItemId, Line>)

  datatype Db = Db(
    donations: map<DonationId, Donation>, intakes: map<IntakeKey, Intake>, stock: Stock, journal: seq<Posting>)

  /** The items of a donation whose catalogue category is GOODS: what an intake has to cover. */
  function GoodsOf(cfg: Config, d: Donation): (goods: map<ItemId, DonationItem>)
  {
    map i | i in d.items && i in cfg.items && cfg.items[i].category == GOODS :: d.items[i]
  }

  /** CHECK constraints of donation_item, the FUNDS quantity rule, and the foreign key to item. */
  predicate ItemOk(cfg: Config, i: ItemId, it: DonationItem)
  {
    && i in cfg.items
    && ItemConstraints(it)
    && (it.kind == FUNDS ==> it.qty == 100)
  }

  predicate ItemConstraints(it: DonationItem)
  {
    && 0 <= it.qty
    && 0 <= it.cost
    && (if it.kind == GOODS then it.hasUom && !it.hasCurrency else it.hasCurrency && !it.hasUom)
  }

  ghost predicate DonationOk(cfg: Config, d: Donation)
  {
    && (forall i :: i in d.items ==> ItemOk(cfg, i, d.items[i]))
    && (d.status != Entered ==> ItemsSettled(cfg, d.items))
  }

  /** What verification of a donation leaves behind. */
  ghost predicate ItemsSettled(cfg: Config, items: map<ItemId, DonationItem>)
  {
    && items != map[]
    && forall i :: i in items ==>
         items[i].status == VerifiedItem && i in cfg.items && items[i].kind == cfg.items[i].category
  }
}

/**
  Which donations can be taken in at all, and a run in which one donation enters stock twice.
 */
module Feasibility {
  import opened Common
  import opened Tables
  import opened Sums
  import opened Intakes
  import opened Ledger
  import opened Runs
  import opened Conservation

  /** The plainest entry: everything usable, unit value 1.00, batch X dated and expiring today. */
  function PlainEntry(goods: map<ItemId, DonationItem>, today: Day): EntryForm
  {
    EntryForm(On(today), 0, false,
      map i | i in goods :: EntryLine("X", On(today), On(today), true, Num(100), Num(goods[i].qty), Absent, Absent))
  }

  ghost predicate AllPositive(goods: map<ItemId, DonationItem>)
  {
    forall i :: i in goods ==> 0 < goods[i].qty
  }

  lemma PlainEntryAccepted(cfg: Config, db: Db, key: IntakeKey, today: Day)
    requires OpenForEntry(cfg, db, key)
    requires AllPositive(GoodsOf(cfg, db.donations[key.donation]))
    ensures CanSave(cfg, db, key, today, PlainEntry(GoodsOf(cfg, db.donations[key.donation]), today))
  {
    var goods := GoodsOf(cfg, db.donations[key.donation]);
    var form := PlainEntry(goods, today);
    forall i | i in goods
      ensures EntryResult(cfg, today, form, i).Ok?
      ensures EntryResult(cfg, today, form, i).value.q.Total() == goods[i].qty
      ensures LineConstraints(cfg, EntryResult(cfg, today, form, i).value)
    {
      var q := goods[i].qty;
      assert (q * 100 + 50) / 100 == q;
    }
  }

  /** The entry handler saves the form: its guards let the intake through and the commit succeeds. */
  predicate CanEnter(cfg: Config, db: Db, key: IntakeKey, today: Day, form: EntryForm)
  {
    EntryGuards(cfg, db, key) && CanSave(cfg, db, key, today, form)
  }

  lemma SavedQuantitiesPositive(cfg: Config, db: Db, key: IntakeKey, today: Day, form: EntryForm)
    requires CanSave(cfg, db, key, today, form)
    ensures AllPositive(GoodsOf(cfg, db.donations[key.donation]))
  {
    var goods := GoodsOf(cfg, db.donations[key.donation]);
    forall i | i in goods ensures 0 < goods[i].qty {
      assert EntryLines(cfg, today, goods, form)[i].q.Total() == goods[i].qty;
    }
  }

  /**
    Some form can be entered exactly when the guards hold and every GOODS item has a positive quantity.
    A donation may be verified with quantity zero, but an entry line must be usable in part and must
    equal the donated quantity, so no form satisfies both.
   */
  lemma EntryPossibleIff(cfg: Config, db: Db, key: IntakeKey, today: Day)
    ensures (exists form :: CanEnter(cfg, db, key, today, form)) <==>
            EntryGuards(cfg, db, key) && AllPositive(GoodsOf(cfg, db.donations[key.donation]))
  {
    if EntryGuards(cfg, db, key) && AllPositive(GoodsOf(cfg, db.donations[key.donation])) {
      PlainEntryAccepted(cfg, db, key, today);
      assert CanEnter(cfg, db, key, today, PlainEntry(GoodsOf(cfg, db.donations[key.donation]), today));
    }
    if form :| CanEnter(cfg, db, key, today, form) {
      SavedQuantitiesPositive(cfg, db, key, today, form);
    }
  }

  /** A verified donation with a zero-quantity GOODS item never gets an intake and never becomes processed. */
  lemma ZeroQuantityNeverProcessed(cfg: Config, db: Db, actions: seq<Action>, d: DonationId, i: ItemId)
    requires Valid(cfg, db)
    requires d in db.donations && db.donations[d].status == Verified
    requires i in GoodsOf(cfg, db.donations[d]) && db.donations[d].items[i].qty == 0
    ensures var db' := Run(cfg, db, actions);
      && d in db'.donations && db'.donations[d].status == Verified
      && forall k :: k in db'.intakes ==> k.donation != d
  {
    var db' := Run(cfg, db, actions);
    RunKeepsValid(cfg, db, actions);
    RunFreezes(cfg, db, actions);
    assert i in GoodsOf(cfg, db'.donations[d]) && db'.donations[d].items[i].qty == 0;
    forall k | k in db'.intakes ensures k.donation != d {
      assert IntakeOk(cfg, db'.donations, k, db'.intakes[k]);
    }
  }

  lemma UntouchedLineAccepted(cfg: Config, canExpire: bool, today: Day, l: Line, donated: DonationItem)
    requires LineOk(cfg, l, donated)
    ensures CheckVerifyLine(canExpire, today, l, Some(donated), UNCHANGED) == Ok(l.(status := VerifiedItem))
  {
  }

  lemma UntouchedLinesAccepted(cfg: Config, today: Day, lines: map<ItemId, Line>, items: map<ItemId, DonationItem>)
    requires forall i :: i in lines ==> i in items && LineOk(cfg, lines[i], items[i])
    ensures LinesVerifiable(cfg, today, lines, items, map[])
  {
    forall i | i in lines
      ensures VerifyResult(cfg, today, lines, items, map[], i) == Ok(lines[i].(status := VerifiedItem))
      ensures LineConstraints(cfg, lines[i].(status := VerifiedItem))
    {
      UntouchedLineAccepted(cfg, i in cfg.items && cfg.items[i].canExpire, today, lines[i], items[i]);
    }
  }

  /** Submitting the verification form untouched always succeeds on a submitted intake. */
  lemma UntouchedVerificationAccepted(cfg: Config, db: Db, key: IntakeKey, today: Day)
    requires Valid(cfg, db) && Awaiting(db, key)
    ensures CanVerifyIntake(cfg, db, key, today, map[])
  {
    assert IntakeOk(cfg, db.donations, key, db.intakes[key]);
    UntouchedLinesAccepted(cfg, today, db.intakes[key].lines, db.donations[key.donation].items);
  }

  // ----- One donation, two warehouses -----

  /** Both warehouses enter the donation while it reads V. */
  function BothEnter(goods: map<ItemId, DonationItem>, k1: IntakeKey, k2: IntakeKey, today: Day): seq<Action>
  {
    [SaveIntake(k1, today, PlainEntry(goods, today)), SaveIntake(k2, today, PlainEntry(goods, today))]
  }

  /** Then both intakes are verified as entered. */
  function BothPosted(k1: IntakeKey, k2: IntakeKey, today: Day): seq<Action>
  {
    [PostIntake(k1, today, map[]), PostIntake(k2, today, map[])]
  }

  lemma RunTwo(cfg: Config, db: Db, a: Action, b: Action)
    ensures Run(cfg, db, [a, b]) == Next(cfg, Next(cfg, db, a), b)
  {
    RunAppend(cfg, db, [], a);
    RunAppend(cfg, db, [a], b);
    assert [] + [a] == [a] && [a] + [b] == [a, b];
  }

  lemma RunBothEnter(cfg: Config, db: Db, goods: map<ItemId, DonationItem>, k1: IntakeKey, k2: IntakeKey, today: Day)
    ensures Run(cfg, db, BothEnter(goods, k1, k2, today)) ==
            Save(cfg, Save(cfg, db, k1, today, PlainEntry(goods, today)), k2, today, PlainEntry(goods, today))
  {
    var form := PlainEntry(goods, today);
    RunTwo(cfg, db, SaveIntake(k1, today, form), SaveIntake(k2, today, form));
  }

  lemma RunBothPosted(cfg: Config, db: Db, k1: IntakeKey, k2: IntakeKey, today: Day)
    ensures Run(cfg, db, BothPosted(k1, k2, today)) ==
            VerifyIntake(cfg, VerifyIntake(cfg, db, k1, today, map[]), k2, today, map[])
  {
    RunTwo(cfg, db, PostIntake(k1, today, map[]), PostIntake(k2, today, map[]));
  }

  /** One intake submitted, everything else as before. */
  ghost predicate SubmittedOnly(db: Db, db': Db, key: IntakeKey)
  {
    && db'.donations == db.donations
    && Awaiting(db', key) && db'.intakes == db.intakes[key := db'.intakes[key]]
  }

  lemma SubmittedAfterSave(cfg: Config, db: Db, key: IntakeKey, today: Day, goods: map<ItemId, DonationItem>)
    requires Valid(cfg, db) && OpenForEntry(cfg, db, key)
    requires goods == GoodsOf(cfg, db.donations[key.donation]) && AllPositive(goods)
    ensures SubmittedOnly(db, Save(cfg, db, key, today, PlainEntry(goods, today)), key)
    ensures Valid(cfg, Save(cfg, db, key, today, PlainEntry(goods, today)))
  {
    var form := PlainEntry(goods, today);
    SaveKeepsValid(cfg, db, key, today, form);
    PlainEntryAccepted(cfg, db, key, today);
    var lines := EntryLines(cfg, today, goods, form);
    assert Save(cfg, db, key, today, form) == CommitEntry(db, key, false, lines);
    EntryWrites(db, key, lines);
  }

  lemma EntryWrites(db: Db, key: IntakeKey, lines: map<ItemId, Line>)
    requires key.donation in db.donations
    ensures var db' := CommitEntry(db, key, false, lines);
      db'.donations == db.donations && Awaiting(db', key) && db'.intakes == db.intakes[key := db'.intakes[key]]
  {
  }

  lemma StillOpen(cfg: Config, db: Db, db': Db, k1: IntakeKey, k2: IntakeKey)
    requires SubmittedOnly(db, db', k1) && k1 != k2 && OpenForEntry(cfg, db, k2)
    ensures OpenForEntry(cfg, db', k2)
    ensures EntryGuards(cfg, db, k2) ==> EntryGuards(cfg, db', k2)
    ensures GoodsOf(cfg, db'.donations[k2.donation]) == GoodsOf(cfg, db.donations[k2.donation])
  {
  }

  lemma SubmittedBoth(db: Db, db1: Db, db2: Db, k1: IntakeKey, k2: IntakeKey)
    requires SubmittedOnly(db, db1, k1) && SubmittedOnly(db1, db2, k2) && k1 != k2
    ensures Awaiting(db2, k1) && Awaiting(db2, k2) && db2.intakes.Keys == db.intakes.Keys + {k1, k2}
  {
  }

  lemma RunSave(cfg: Config, db: Db, key: IntakeKey, today: Day, form: EntryForm)
    ensures Run(cfg, db, [SaveIntake(key, today, form)]) == Save(cfg, db, key, today, form)
  {
    RunOne(cfg, db, SaveIntake(key, today, form));
  }

  lemma CommitLeavesOthers(db: Db, key: IntakeKey, lines: map<ItemId, Line>, k: IntakeKey)
    requires Awaiting(db, key) && k != key
    ensures var db' := CommitPosting(db, key, lines);
      (Awaiting(db, k) ==> Awaiting(db', k)) && (IsPosted(db.intakes, k) ==> IsPosted(db'.intakes, k))
  {
  }

  lemma PostedAfterVerify(cfg: Config, db: Db, key: IntakeKey, k: IntakeKey, today: Day)
    requires Valid(cfg, db) && Awaiting(db, key) && k != key
    ensures var db' := VerifyIntake(cfg, db, key, today, map[]);
      && Valid(cfg, db') && IsPosted(db'.intakes, key) && db'.intakes.Keys == db.intakes.Keys
      && (Awaiting(db, k) ==> Awaiting(db', k)) && (IsPosted(db.intakes, k) ==> IsPosted(db'.intakes, k))
  {
    PostKeepsValid(cfg, db, key, today, map[]);
    UntouchedVerificationAccepted(cfg, db, key, today);
    CommitLeavesOthers(db, key,
        VerifiedLines(cfg, today, db.intakes[key].lines, db.donations[key.donation].items, map[]), k);
  }

  /** Saving two different intakes of one donation leaves both submitted. */
  lemma TwoSaves(cfg: Config, db: Db, k1: IntakeKey, k2: IntakeKey, today: Day)
    requires Valid(cfg, db) && k1 != k2 && k1.donation == k2.donation
    requires OpenForEntry(cfg, db, k1) && OpenForEntry(cfg, db, k2)
    requires AllPositive(GoodsOf(cfg, db.donations[k1.donation]))
    ensures var db' := Run(cfg, db, BothEnter(GoodsOf(cfg, db.donations[k1.donation]), k1, k2, today));
      Valid(cfg, db') && Awaiting(db', k1) && Awaiting(db', k2) && db'.intakes.Keys == db.intakes.Keys + {k1, k2}
  {
    var goods := GoodsOf(cfg, db.donations[k1.donation]);
    RunBothEnter(cfg, db, goods, k1, k2, today);
    var db1 := Save(cfg, db, k1, today, PlainEntry(goods, today));
    SubmittedAfterSave(cfg, db, k1, today, goods);
    StillOpen(cfg, db, db1, k1, k2);
    SubmittedAfterSave(cfg, db1, k2, today, goods);
    SubmittedBoth(db, db1, Save(cfg, db1, k2, today, PlainEntry(goods, today)), k1, k2);
  }

  /** Verifying one of two submitted intakes does not keep the other from being verified. */
  lemma TwoPosts(cfg: Config, db: Db, k1: IntakeKey, k2: IntakeKey, today: Day)
    requires Valid(cfg, db) && k1 != k2 && Awaiting(db, k1) && Awaiting(db, k2)
    ensures var db' := Run(cfg, db, BothPosted(k1, k2, today));
      IsPosted(db'.intakes, k1) && IsPosted(db'.intakes, k2) && db'.intakes.Keys == db.intakes.Keys
  {
    PostedAfterVerify(cfg, db, k1, k2, today);
    PostedAfterVerify(cfg, VerifyIntake(cfg, db, k1, today, map[]), k2, k1, today);
    RunBothPosted(cfg, db, k1, k2, today);
  }

  /** Every entry of a run passes the entry handler's own guards at its moment. */
  ghost predicate EntriesAdmitted(cfg: Config, db: Db, actions: seq<Action>)
  {
    forall n :: 0 <= n < |actions| && actions[n].SaveIntake? ==>
      EntryGuards(cfg, Run(cfg, db, actions[..n]), actions[n].key)
  }

  /** Both warehouses enter the donation and then both verify. */
  function EnteredAndPosted(goods: map<ItemId, DonationItem>, k1: IntakeKey, k2: IntakeKey, today: Day): seq<Action>
  {
    BothEnter(goods, k1, k2, today) + BothPosted(k1, k2, today)
  }

  lemma SecondAdmitted(cfg: Config, db: Db, k1: IntakeKey, k2: IntakeKey, today: Day, goods: map<ItemId, DonationItem>)
    requires Valid(cfg, db) && k1 != k2 && k1.donation == k2.donation
    requires EntryGuards(cfg, db, k1) && EntryGuards(cfg, db, k2)
    requires goods == GoodsOf(cfg, db.donations[k1.donation]) && AllPositive(goods)
    ensures EntryGuards(cfg, Run(cfg, db, [SaveIntake(k1, today, PlainEntry(goods, today))]), k2)
  {
    var form := PlainEntry(goods, today);
    RunSave(cfg, db, k1, today, form);
    SubmittedAfterSave(cfg, db, k1, today, goods);
    StillOpen(cfg, db, Save(cfg, db, k1, today, form), k1, k2);
  }

  lemma TwoEntriesAdmitted(cfg: Config, db: Db, a: Action, b: Action, rest: seq<Action>)
    requires a.SaveIntake? && b.SaveIntake? && forall c :: c in rest ==> !c.SaveIntake?
    requires EntryGuards(cfg, db, a.key) && EntryGuards(cfg, Run(cfg, db, [a]), b.key)
    ensures EntriesAdmitted(cfg, db, [a, b] + rest)
  {
    var actions := [a, b] + rest;
    assert actions[..0] == [] && actions[..1] == [a];
    forall n | 2 <= n < |actions| ensures !actions[n].SaveIntake? {
      assert actions[n] == rest[n - 2];
    }
  }

  lemma BothAdmitted(cfg: Config, db: Db, k1: IntakeKey, k2: IntakeKey, today: Day)
    requires Valid(cfg, db) && k1 != k2 && k1.donation == k2.donation
    requires EntryGuards(cfg, db, k1) && EntryGuards(cfg, db, k2)
    requires AllPositive(GoodsOf(cfg, db.donations[k1.donation]))
    ensures EntriesAdmitted(cfg, db, EnteredAndPosted(GoodsOf(cfg, db.donations[k1.donation]), k1, k2, today))
  {
    var goods := GoodsOf(cfg, db.donations[k1.donation]);
    var form := PlainEntry(goods, today);
    SecondAdmitted(cfg, db, k1, k2, today, goods);
    TwoEntriesAdmitted(cfg, db, SaveIntake(k1, today, form), SaveIntake(k2, today, form), BothPosted(k1, k2, today));
  }

  /**
    A verified donation of positive quantities can be received in full by each of two warehouses that
    may enter it: by handler calls that are all admitted, both intakes end up verified.
   */
  lemma DonationReceivedTwice(cfg: Config, db: Db, k1: IntakeKey, k2: IntakeKey, today: Day)
    requires Valid(cfg, db) && k1 != k2 && k1.donation == k2.donation
    requires EntryGuards(cfg, db, k1) && EntryGuards(cfg, db, k2)
    requires AllPositive(GoodsOf(cfg, db.donations[k1.donation]))
    ensures var actions := EnteredAndPosted(GoodsOf(cfg, db.donations[k1.donation]), k1, k2, today);
      var db' := Run(cfg, db, actions);
      && EntriesAdmitted(cfg, db, actions)
      && IsPosted(db'.intakes, k1) && IsPosted(db'.intakes, k2) && db'.intakes.Keys == db.intakes.Keys + {k1, k2}
  {
    var entries := BothEnter(GoodsOf(cfg, db.donations[k1.donation]), k1, k2, today);
    BothAdmitted(cfg, db, k1, k2, today);
    TwoSaves(cfg, db, k1, k2, today);
    TwoPosts(cfg, Run(cfg, db, entries), k1, k2, today);
    RunConcat(cfg, db, entries, BothPosted(k1, k2, today));
  }

  lemma GainOfOneDonation(cfg: Config, db: Db, actions: seq<Action>, d: DonationId, s: StockKey)
    requires Valid(cfg, db) && d in db.donations && db.donations[d].status != Entered
    requires PostedAt(db.intakes, s.warehouse) == {} && PostedAt(Run(cfg, db, actions).intakes, s.warehouse) == {d}
    ensures StockTotal(Run(cfg, db, actions).stock.inventory, s) ==
            StockTotal(db.stock.inventory, s) + DonatedGoods(cfg, db.donations, d, s.item)
  {
    var db' := Run(cfg, db, actions);
    GainIsNewlyPosted(cfg, db, actions, s);
    RunFreezes(cfg, db, actions);
    FrozenGoods(cfg, db.donations, db'.donations, d, s.item);
    assert NewlyPosted(db, db', s.warehouse) == {d};
    SumConstant({d}, e => DonatedGoods(cfg, db'.donations, e, s.item), DonatedGoods(cfg, db'.donations, d, s.item));
  }

  /** A concrete instance: 5.00 of item 1 donated, 10.00 in stock. */
  lemma FiveDonatedTenInStock(cfg: Config, db: Db)
    requires cfg == Config(map[1 := ItemInfo(GOODS, "I1", true, false)], map[1 := true, 2 := true], true)
    requires db == Db(
      map[7 := Donation(Verified, 1, map[1 := DonationItem(GOODS, 500, 0, true, false, VerifiedItem, 1)])],
      map[], Stock(map[], map[]), [])
    ensures var actions := EnteredAndPosted(GoodsOf(cfg, db.donations[7]), IntakeKey(7, 1), IntakeKey(7, 2), 0);
      var db' := Run(cfg, db, actions);
      && EntriesAdmitted(cfg, db, actions)
      && StockTotal(db'.stock.inventory, StockKey(1, 1)) + StockTotal(db'.stock.inventory, StockKey(2, 1)) == 1000
  {
    var actions := EnteredAndPosted(GoodsOf(cfg, db.donations[7]), IntakeKey(7, 1), IntakeKey(7, 2), 0);
    var db' := Run(cfg, db, actions);
    assert 1 in db.donations[7].items;
    FreshDbValid(cfg, db);
    DonationReceivedTwice(cfg, db, IntakeKey(7, 1), IntakeKey(7, 2), 0);
    forall w: nat | w == 1 || w == 2 ensures StockTotal(db'.stock.inventory, StockKey(w, 1)) == 500 {
      assert PostedAt(db.intakes, w) == {};
      assert PostedAt(db'.intakes, w) == {7} by {
        assert IsPosted(db'.intakes, IntakeKey(7, w));
      }
      GainOfOneDonation(cfg, db, actions, 7, StockKey(w, 1));
    }
  }

  /** A database without intakes and stock is consistent when its donations are and none is processed. */
  lemma FreshDbValid(cfg: Config, db: Db)
    requires DonationsOk(cfg, db.donations) && db.intakes == map[] && db.journal == []
      && db.stock == Stock(map[], map[])
    requires forall d :: d in db.donations ==> db.donations[d].status != Processed
    ensures Valid(cfg, db)
  {
    forall s, c ensures BatchSum(db.stock.batches, s, c) == 0 {
      assert BatchKeys(db.stock.batches, s) == {};
    }
  }
}

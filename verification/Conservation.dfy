/**
  What whole runs conserve: donated quantities against stock, the ledger against its journal, and
  recorded against recomputed values. Also what they do not conserve, and exactly when.
 */
module Conservation {
  import opened Sums
  import opened Tables
  import opened Intakes
  import opened Ledger
  import opened Runs

  // ----- Stock gained equals quantities donated -----

  function StockTotal(inventory: map<StockKey, Quantities>, s: StockKey): int
  {
    if s in inventory then inventory[s].Total() else 0
  }

  function LineTotal(lines: map<ItemId, Line>, i: ItemId): int
  {
    if i in lines then lines[i].q.Total() else 0
  }

  /** The quantity of a GOODS item in a donation; 0 when the donation has no such item. */
  function DonatedGoods(cfg: Config, donations: map<DonationId, Donation>, d: DonationId, i: ItemId): int
  {
    if d in donations && i in GoodsOf(cfg, donations[d]) then donations[d].items[i].qty else 0
  }

  /** The donations with a verified intake at a warehouse. */
  ghost function PostedAt(intakes: map<IntakeKey, Intake>, w: WarehouseId): set<DonationId>
  {
    set k | k in intakes && IsPosted(intakes, k) && k.warehouse == w :: k.donation
  }

  /** The quantity of an item donated in all donations with a verified intake at a warehouse. */
  ghost function PostedGoods(
    cfg: Config, donations: map<DonationId, Donation>, intakes: map<IntakeKey, Intake>, s: StockKey): int
  {
    SumOver(PostedAt(intakes, s.warehouse), d => DonatedGoods(cfg, donations, d, s.item))
  }

  /** Between two states, a stock row gained exactly what newly verified intakes account for. */
  ghost predicate GainAccounted(cfg: Config, db: Db, db': Db, s: StockKey)
  {
    StockTotal(db'.stock.inventory, s) - StockTotal(db.stock.inventory, s) ==
    PostedGoods(cfg, db'.donations, db'.intakes, s) - PostedGoods(cfg, db.donations, db.intakes, s)
  }

  lemma PostInventoryTotal(inventory: map<StockKey, Quantities>, w: WarehouseId, lines: map<ItemId, Line>, s: StockKey)
    ensures StockTotal(PostInventory(inventory, w, lines), s) ==
            StockTotal(inventory, s) + if s.warehouse == w then LineTotal(lines, s.item) else 0
  {
    PostInventoryCol(inventory, w, lines, s, UsableCol);
    PostInventoryCol(inventory, w, lines, s, DefectiveCol);
    PostInventoryCol(inventory, w, lines, s, ExpiredCol);
  }

  /** Intakes and frozen donations unchanged where it matters, the accounted quantity is unchanged. */
  lemma SamePostedGoods(cfg: Config, db: Db, db': Db, s: StockKey)
    requires IntakesOk(cfg, db.donations, db.intakes) && DonationsFrozen(db.donations, db'.donations)
    requires forall k :: IsPosted(db.intakes, k) <==> IsPosted(db'.intakes, k)
    ensures PostedGoods(cfg, db'.donations, db'.intakes, s) == PostedGoods(cfg, db.donations, db.intakes, s)
  {
    var f, g := (d: DonationId) => DonatedGoods(cfg, db.donations, d, s.item),
                (d: DonationId) => DonatedGoods(cfg, db'.donations, d, s.item);
    assert PostedAt(db.intakes, s.warehouse) == PostedAt(db'.intakes, s.warehouse);
    forall d | d in PostedAt(db.intakes, s.warehouse) ensures f(d) == g(d) {
      var k := IntakeKey(d, s.warehouse);
      assert IntakeOk(cfg, db.donations, k, db.intakes[k]);
      assert GoodsOf(cfg, db.donations[d]).Keys == GoodsOf(cfg, db'.donations[d]).Keys;
    }
    SumSame(PostedAt(db.intakes, s.warehouse), f, g);
  }

  /** Posting an intake moves exactly its donation's quantities into the accounted sum. */
  lemma ReplacePostedGoods(cfg: Config, donations: map<DonationId, Donation>, intakes: map<IntakeKey, Intake>,
                           key: IntakeKey, d: Donation, n: Intake, s: StockKey)
    requires key.donation in donations && d.items == donations[key.donation].items
    requires !IsPosted(intakes, key) && n.status == Posted
    ensures PostedGoods(cfg, donations[key.donation := d], intakes[key := n], s) ==
            PostedGoods(cfg, donations, intakes, s) +
            if s.warehouse == key.warehouse then DonatedGoods(cfg, donations, key.donation, s.item) else 0
  {
    var donations' := donations[key.donation := d];
    var f, g := (id: DonationId) => DonatedGoods(cfg, donations, id, s.item),
                (id: DonationId) => DonatedGoods(cfg, donations', id, s.item);
    assert GoodsOf(cfg, d) == GoodsOf(cfg, donations[key.donation]);
    var before := PostedAt(intakes, s.warehouse);
    SumSame(before, f, g);
    if s.warehouse == key.warehouse {
      PostedAtInsert(intakes, key, n);
      SumAdd(before, g, key.donation);
    } else {
      PostedAtOther(intakes, key, n, s.warehouse);
    }
  }

  lemma PostedAtInsert(intakes: map<IntakeKey, Intake>, key: IntakeKey, n: Intake)
    requires !IsPosted(intakes, key) && n.status == Posted
    ensures PostedAt(intakes[key := n], key.warehouse) == PostedAt(intakes, key.warehouse) + {key.donation}
    ensures key.donation !in PostedAt(intakes, key.warehouse)
  {
    var intakes' := intakes[key := n];
    assert IsPosted(intakes', key);
    assert forall k :: k != key ==> (IsPosted(intakes', k) <==> IsPosted(intakes, k));
  }

  lemma PostedAtOther(intakes: map<IntakeKey, Intake>, key: IntakeKey, n: Intake, w: WarehouseId)
    requires w != key.warehouse
    ensures PostedAt(intakes[key := n], w) == PostedAt(intakes, w)
  {
    assert forall k :: k != key ==> (IsPosted(intakes[key := n], k) <==> IsPosted(intakes, k));
  }

  lemma LinesAccount(
    cfg: Config, donations: map<DonationId, Donation>, key: IntakeKey, lines: map<ItemId, Line>, i: ItemId)
    requires key.donation in donations && lines.Keys == GoodsOf(cfg, donations[key.donation]).Keys
    requires LinesSettled(cfg, lines, donations[key.donation].items)
    ensures LineTotal(lines, i) == DonatedGoods(cfg, donations, key.donation, i)
  {
    if i in lines {
      assert LineOk(cfg, lines[i], donations[key.donation].items[i]);
    }
  }

  lemma CommitConserves(cfg: Config, db: Db, key: IntakeKey, lines: map<ItemId, Line>, s: StockKey)
    requires Awaiting(db, key)
    requires lines.Keys == GoodsOf(cfg, db.donations[key.donation]).Keys
    requires LinesSettled(cfg, lines, db.donations[key.donation].items)
    ensures GainAccounted(cfg, db, CommitPosting(db, key, lines), s)
  {
    var db' := CommitPosting(db, key, lines);
    assert PostedGoods(cfg, db'.donations, db'.intakes, s) == PostedGoods(cfg, db.donations, db.intakes, s) +
            (if s.warehouse == key.warehouse then DonatedGoods(cfg, db.donations, key.donation, s.item) else 0) by {
      ReplacePostedGoods(cfg, db.donations, db.intakes, key, db'.donations[key.donation], db'.intakes[key], s);
    }
    assert StockTotal(db'.stock.inventory, s) == StockTotal(db.stock.inventory, s) +
            (if s.warehouse == key.warehouse then DonatedGoods(cfg, db.donations, key.donation, s.item) else 0) by {
      PostInventoryTotal(db.stock.inventory, key.warehouse, lines, s);
      LinesAccount(cfg, db.donations, key, lines, s.item);
    }
  }

  lemma VerifyConserves(cfg: Config, db: Db, key: IntakeKey, today: Day, form: VerifyForm, s: StockKey)
    requires Valid(cfg, db)
    ensures GainAccounted(cfg, db, VerifyIntake(cfg, db, key, today, form), s)
  {
    if CanVerifyIntake(cfg, db, key, today, form) {
      var items, lines := db.donations[key.donation].items, db.intakes[key].lines;
      assert IntakeOk(cfg, db.donations, key, db.intakes[key]);
      VerifiedLinesOk(cfg, today, lines, items, form);
      CommitConserves(cfg, db, key, VerifiedLines(cfg, today, lines, items, form), s);
    }
  }

  lemma PostConserves(cfg: Config, db: Db, a: Action, s: StockKey)
    requires Valid(cfg, db) && a.PostIntake?
    ensures GainAccounted(cfg, db, Next(cfg, db, a), s)
  {
    assert Next(cfg, db, a) == VerifyIntake(cfg, db, a.key, a.today, a.verify);
    VerifyConserves(cfg, db, a.key, a.today, a.verify, s);
  }

  lemma OtherConserves(cfg: Config, db: Db, a: Action, s: StockKey)
    requires Valid(cfg, db) && !a.PostIntake?
    ensures GainAccounted(cfg, db, Next(cfg, db, a), s)
  {
    NextFreezes(cfg, db, a);
    OnlyPostingPosts(cfg, db, a);
    SamePostedGoods(cfg, db, Next(cfg, db, a), s);
  }

  lemma NextConserves(cfg: Config, db: Db, a: Action, s: StockKey)
    requires Valid(cfg, db)
    ensures GainAccounted(cfg, db, Next(cfg, db, a), s)
  {
    if a.PostIntake? {
      PostConserves(cfg, db, a, s);
    } else {
      OtherConserves(cfg, db, a, s);
    }
  }

  /** Nothing but a verification touches stock, adds to the journal, or posts an intake. */
  lemma OnlyPostingPosts(cfg: Config, db: Db, a: Action)
    requires Valid(cfg, db) && !a.PostIntake?
    ensures Next(cfg, db, a).stock == db.stock && Next(cfg, db, a).journal == db.journal
    ensures forall k :: IsPosted(db.intakes, k) <==> IsPosted(Next(cfg, db, a).intakes, k)
  {
    if !a.SaveIntake? {
      DonationActionStays(cfg, db, a);
    }
  }

  /**
    Conservation over whole runs: in every reachable state, what an (item, warehouse) stock row has
    gained in usable, defective and expired together is the donated quantity of that item, summed
    over the donations whose intakes at that warehouse were verified since.
   */
  lemma {:induction false} RunConserves(cfg: Config, db: Db, actions: seq<Action>, s: StockKey)
    requires Valid(cfg, db)
    ensures GainAccounted(cfg, db, Run(cfg, db, actions), s)
  {
    if actions != [] {
      var n := |actions| - 1;
      RunConserves(cfg, db, actions[..n], s);
      RunKeepsValid(cfg, db, actions[..n]);
      NextConserves(cfg, Run(cfg, db, actions[..n]), actions[n], s);
    }
  }

  // ----- The journal determines the stock -----

  /** The stock is the opening stock with the postings journalled since replayed over it. */
  ghost predicate Replayed(opening: Db, db: Db)
  {
    opening.journal <= db.journal && db.stock == Replay(opening.stock, db.journal[|opening.journal|..])
  }

  /**
    Both stock tables are the opening stock with the journal's postings replayed over it: nothing
    else ever moves them, and nothing is posted without being journalled.
   */
  lemma {:induction false} RunReplays(cfg: Config, db: Db, actions: seq<Action>)
    requires Valid(cfg, db)
    ensures Replayed(db, Run(cfg, db, actions))
  {
    if actions != [] {
      var n := |actions| - 1;
      var before := Run(cfg, db, actions[..n]);
      RunReplays(cfg, db, actions[..n]);
      RunKeepsValid(cfg, db, actions[..n]);
      NextReplays(cfg, db, before, actions[n]);
    }
  }

  lemma NextReplays(cfg: Config, opening: Db, db: Db, a: Action)
    requires Valid(cfg, db) && Replayed(opening, db)
    ensures Replayed(opening, Next(cfg, db, a))
  {
    if a.PostIntake? {
      PostReplays(cfg, opening, db, a);
    } else {
      OtherReplays(cfg, opening, db, a);
    }
  }

  lemma OtherReplays(cfg: Config, opening: Db, db: Db, a: Action)
    requires Valid(cfg, db) && Replayed(opening, db) && !a.PostIntake?
    ensures Replayed(opening, Next(cfg, db, a))
  {
    OnlyPostingPosts(cfg, db, a);
  }

  lemma PostReplays(cfg: Config, opening: Db, db: Db, a: Action)
    requires Replayed(opening, db) && a.PostIntake?
    ensures Replayed(opening, Next(cfg, db, a))
  {
    assert Next(cfg, db, a) == VerifyIntake(cfg, db, a.key, a.today, a.verify);
    VerifyReplays(cfg, opening, db, a.key, a.today, a.verify);
  }

  lemma VerifyReplays(cfg: Config, opening: Db, db: Db, key: IntakeKey, today: Day, form: VerifyForm)
    requires Replayed(opening, db)
    ensures Replayed(opening, VerifyIntake(cfg, db, key, today, form))
  {
    if CanVerifyIntake(cfg, db, key, today, form) {
      CommitReplays(opening, db, key,
        VerifiedLines(cfg, today, db.intakes[key].lines, db.donations[key.donation].items, form));
    }
  }

  lemma CommitReplays(opening: Db, db: Db, key: IntakeKey, lines: map<ItemId, Line>)
    requires Awaiting(db, key) && Replayed(opening, db)
    ensures Replayed(opening, CommitPosting(db, key, lines))
  {
    var p := Posting(key, db.intakes[key].version, lines);
    var o := |opening.journal|;
    ReplayAppend(opening.stock, db.journal[o..], p);
    assert (db.journal + [p])[o..] == db.journal[o..] + [p];
  }

  /**
    Each (donation, warehouse) intake is posted at most once in any run, exactly when it reads V, and
    with the lines it shows; each posted line accounts for exactly the donated quantity.
   */
  lemma PostedAtMostOnce(cfg: Config, db: Db, actions: seq<Action>)
    requires Valid(cfg, db)
    ensures var db' := Run(cfg, db, actions);
      && (forall i, j :: 0 <= i < j < |db'.journal| ==> db'.journal[i].key != db'.journal[j].key)
      && (forall k :: IsPosted(db'.intakes, k) <==> exists p :: p in db'.journal && p.key == k)
      && (forall p :: p in db'.journal ==> p.key in db'.intakes && p.lines == db'.intakes[p.key].lines)
      && (forall p, i :: p in db'.journal ==>
            LineTotal(p.lines, i) == DonatedGoods(cfg, db'.donations, p.key.donation, i))
  {
    var db' := Run(cfg, db, actions);
    RunKeepsValid(cfg, db, actions);
    forall p, i | p in db'.journal
      ensures LineTotal(p.lines, i) == DonatedGoods(cfg, db'.donations, p.key.donation, i)
    {
      assert IntakeOk(cfg, db'.donations, p.key, db'.intakes[p.key]);
    }
  }

  // ----- What is not conserved: a donation taken in by several warehouses -----

  ghost function WarehousesOf(intakes: map<IntakeKey, Intake>, d: DonationId): set<WarehouseId>
  {
    set k | k in intakes && IsPosted(intakes, k) && k.donation == d :: k.warehouse
  }

  /** The quantity of an item that all warehouses together received from one donation. */
  ghost function ReceivedFrom(journal: seq<Posting>, d: DonationId, i: ItemId): int
  {
    SumSeq(journal, (p: Posting) => if p.key.donation == d then LineTotal(p.lines, i) else 0)
  }

  ghost function Receivers(journal: seq<Posting>, d: DonationId): set<WarehouseId>
  {
    set p | p in journal && p.key.donation == d :: p.key.warehouse
  }

  lemma ReceiversLast(journal: seq<Posting>, d: DonationId)
    requires journal != []
    requires forall a, b :: 0 <= a < b < |journal| ==> journal[a].key != journal[b].key
    ensures var p := journal[|journal| - 1];
      var before := Receivers(journal[..|journal| - 1], d);
      Receivers(journal, d) == (if p.key.donation == d then before + {p.key.warehouse} else before) &&
      (p.key.donation == d ==> p.key.warehouse !in before)
  {
    var p := journal[|journal| - 1];
    forall q: Posting ensures q in journal <==> q in journal[..|journal| - 1] || q == p {
      LastOrEarlier(journal, q);
    }
  }

  lemma ReceivedLast(journal: seq<Posting>, d: DonationId, i: ItemId)
    requires journal != []
    ensures var p := journal[|journal| - 1];
      ReceivedFrom(journal, d, i) ==
      ReceivedFrom(journal[..|journal| - 1], d, i) + if p.key.donation == d then LineTotal(p.lines, i) else 0
  {
  }

  lemma {:induction false} ReceivedPerPosting(journal: seq<Posting>, d: DonationId, i: ItemId, qty: int)
    requires forall a, b :: 0 <= a < b < |journal| ==> journal[a].key != journal[b].key
    requires forall p :: p in journal && p.key.donation == d ==> LineTotal(p.lines, i) == qty
    ensures ReceivedFrom(journal, d, i) == |Receivers(journal, d)| * qty
  {
    if journal != [] {
      var n := |journal| - 1;
      ReceivedPerPosting(journal[..n], d, i, qty);
      ReceivedLast(journal, d, i);
      ReceiversLast(journal, d);
      assert journal[n] in journal;
      CountOneMore(|Receivers(journal[..n], d)|, |Receivers(journal, d)|, qty, journal[n].key.donation == d);
    }
  }

  lemma CountOneMore(n: nat, n': nat, q: int, hit: bool)
    requires n' == if hit then n + 1 else n
    ensures n' * q == n * q + if hit then q else 0
  {
  }

  /**
    Posting is once per intake, not once per donation: every verified warehouse receives the whole
    donated quantity again.
   */
  lemma ReceivedPerWarehouse(cfg: Config, db: Db, d: DonationId, i: ItemId)
    requires Valid(cfg, db) && d in db.donations && i in GoodsOf(cfg, db.donations[d])
    ensures ReceivedFrom(db.journal, d, i) == |WarehousesOf(db.intakes, d)| * db.donations[d].items[i].qty
  {
    forall p | p in db.journal && p.key.donation == d ensures LineTotal(p.lines, i) == db.donations[d].items[i].qty {
      assert IntakeOk(cfg, db.donations, p.key, db.intakes[p.key]);
    }
    ReceivedPerPosting(db.journal, d, i, db.donations[d].items[i].qty);
    assert Receivers(db.journal, d) == WarehousesOf(db.intakes, d) by {
      forall w | w in WarehousesOf(db.intakes, d) ensures w in Receivers(db.journal, d) {
        assert IsPosted(db.intakes, IntakeKey(d, w));
      }
    }
  }

  /** So a donation is counted into stock exactly once if and only if exactly one warehouse verified it. */
  lemma ReceivedOnceIff(cfg: Config, db: Db, d: DonationId, i: ItemId)
    requires Valid(cfg, db) && d in db.donations && i in GoodsOf(cfg, db.donations[d])
    requires 0 < db.donations[d].items[i].qty
    ensures ReceivedFrom(db.journal, d, i) == db.donations[d].items[i].qty <==> |WarehousesOf(db.intakes, d)| == 1
  {
    ReceivedPerWarehouse(cfg, db, d, i);
    OnceIff(|WarehousesOf(db.intakes, d)|, db.donations[d].items[i].qty);
  }

  lemma OnceIff(n: nat, q: int)
    requires 0 < q
    ensures n * q == q <==> n == 1
  {
    if n > 1 {
      assert n * q == (n - 2) * q + 2 * q;
      assert 0 <= (n - 2) * q;
    }
  }

  // ----- The same, seen in the stock tables -----

  ghost function StockGain(db: Db, db': Db, s: StockKey): int
  {
    StockTotal(db'.stock.inventory, s) - StockTotal(db.stock.inventory, s)
  }

  /** The donations whose intake at a warehouse was verified between two states. */
  ghost function NewlyPosted(db: Db, db': Db, w: WarehouseId): set<DonationId>
  {
    PostedAt(db'.intakes, w) - PostedAt(db.intakes, w)
  }

  ghost function NewWarehouses(db: Db, db': Db, d: DonationId): set<WarehouseId>
  {
    WarehousesOf(db'.intakes, d) - WarehousesOf(db.intakes, d)
  }

  /** What the intakes of other donations brought into a stock row. */
  ghost function GainFromOthers(cfg: Config, db: Db, db': Db, d: DonationId, s: StockKey): int
  {
    SumOver(NewlyPosted(db, db', s.warehouse) - {d}, e => DonatedGoods(cfg, db'.donations, e, s.item))
  }

  /** The two ways of listing verified intakes. */
  lemma PostedAtIff(intakes: map<IntakeKey, Intake>, d: DonationId, w: WarehouseId)
    ensures d in PostedAt(intakes, w) <==> IsPosted(intakes, IntakeKey(d, w))
    ensures w in WarehousesOf(intakes, d) <==> IsPosted(intakes, IntakeKey(d, w))
  {
    if IsPosted(intakes, IntakeKey(d, w)) {
      assert IntakeKey(d, w) in intakes;
    }
  }

  lemma PostedStay(db: Db, db': Db, w: WarehouseId)
    requires Frozen(db, db')
    ensures PostedAt(db.intakes, w) <= PostedAt(db'.intakes, w)
  {
    forall d | d in PostedAt(db.intakes, w) ensures d in PostedAt(db'.intakes, w) {
      var k := IntakeKey(d, w);
      assert IsPosted(db.intakes, k);
      assert IsPosted(db'.intakes, k);
    }
  }

  lemma GoodsStay(cfg: Config, db: Db, db': Db, w: WarehouseId, d: DonationId, i: ItemId)
    requires Valid(cfg, db) && Frozen(db, db') && d in PostedAt(db.intakes, w)
    ensures DonatedGoods(cfg, db'.donations, d, i) == DonatedGoods(cfg, db.donations, d, i)
  {
    PostedAtIff(db.intakes, d, w);
    assert IntakeOk(cfg, db.donations, IntakeKey(d, w), db.intakes[IntakeKey(d, w)]);
    FrozenGoods(cfg, db.donations, db'.donations, d, i);
  }

  lemma FrozenGoods(
    cfg: Config, before: map<DonationId, Donation>, after: map<DonationId, Donation>, d: DonationId, i: ItemId)
    requires d in before && before[d].status != Entered && DonationsFrozen(before, after)
    ensures DonatedGoods(cfg, after, d, i) == DonatedGoods(cfg, before, d, i)
  {
    assert GoodsOf(cfg, after[d]) == GoodsOf(cfg, before[d]);
  }

  /** Over a run, a stock row gains exactly the quantities of the donations newly verified at its warehouse. */
  lemma GainIsNewlyPosted(cfg: Config, db: Db, actions: seq<Action>, s: StockKey)
    requires Valid(cfg, db)
    ensures var db' := Run(cfg, db, actions);
      StockGain(db, db', s) ==
      SumOver(NewlyPosted(db, db', s.warehouse), d => DonatedGoods(cfg, db'.donations, d, s.item))
  {
    var db' := Run(cfg, db, actions);
    var f, g := (d: DonationId) => DonatedGoods(cfg, db.donations, d, s.item),
                (d: DonationId) => DonatedGoods(cfg, db'.donations, d, s.item);
    var before, added := PostedAt(db.intakes, s.warehouse), NewlyPosted(db, db', s.warehouse);
    RunConserves(cfg, db, actions, s);
    RunFreezes(cfg, db, actions);
    PostedStay(db, db', s.warehouse);
    assert before + added == PostedAt(db'.intakes, s.warehouse);
    SumUnion(before, added, g);
    forall d | d in before ensures f(d) == g(d) {
      GoodsStay(cfg, db, db', s.warehouse, d, s.item);
    }
    SumSame(before, f, g);
  }

  /** A warehouse that verified a donation has its full quantity more in stock, beside what others brought. */
  lemma WarehouseGain(cfg: Config, db: Db, actions: seq<Action>, d: DonationId, s: StockKey)
    requires Valid(cfg, db) && s.warehouse in NewWarehouses(db, Run(cfg, db, actions), d)
    ensures var db' := Run(cfg, db, actions);
      StockGain(db, db', s) == GainFromOthers(cfg, db, db', d, s) + DonatedGoods(cfg, db'.donations, d, s.item)
  {
    var db' := Run(cfg, db, actions);
    var added := NewlyPosted(db, db', s.warehouse);
    GainIsNewlyPosted(cfg, db, actions, s);
    PostedAtIff(db.intakes, d, s.warehouse);
    PostedAtIff(db'.intakes, d, s.warehouse);
    SumTake(added, e => DonatedGoods(cfg, db'.donations, e, s.item), d);
  }

  /**
    In the stock tables: over any run, the warehouses that newly verified a donation together gained its
    quantity once for each of them, beside what other donations brought them; so they gained it exactly
    once if and only if there is exactly one such warehouse.
   */
  lemma StockReceived(cfg: Config, db: Db, actions: seq<Action>, d: DonationId, i: ItemId)
    requires Valid(cfg, db)
    ensures var db' := Run(cfg, db, actions);
      var warehouses, quantity := NewWarehouses(db, db', d), DonatedGoods(cfg, db'.donations, d, i);
      var gain := SumOver(warehouses, w => StockGain(db, db', StockKey(w, i)));
      var others := SumOver(warehouses, w => GainFromOthers(cfg, db, db', d, StockKey(w, i)));
      && gain - others == |warehouses| * quantity
      && (0 < quantity ==> (gain - others == quantity <==> |warehouses| == 1))
  {
    var db' := Run(cfg, db, actions);
    var warehouses, quantity := NewWarehouses(db, db', d), DonatedGoods(cfg, db'.donations, d, i);
    var f, g := (w: WarehouseId) => StockGain(db, db', StockKey(w, i)),
                (w: WarehouseId) => GainFromOthers(cfg, db, db', d, StockKey(w, i));
    forall w | w in warehouses ensures f(w) == g(w) + quantity {
      WarehouseGain(cfg, db, actions, d, StockKey(w, i));
    }
    SumShift(warehouses, f, g, quantity);
    if 0 < quantity {
      OnceIff(|warehouses|, quantity);
    }
  }

  lemma OneMoreWarehouse(intakes: map<IntakeKey, Intake>, key: IntakeKey, n: Intake)
    requires !IsPosted(intakes, key) && n.status == Posted
    ensures var before, after := WarehousesOf(intakes, key.donation), WarehousesOf(intakes[key := n], key.donation);
      key.warehouse !in before && after == before + {key.warehouse} && |after| == |before| + 1
  {
    var before, after := WarehousesOf(intakes, key.donation), WarehousesOf(intakes[key := n], key.donation);
    forall w ensures w in after <==> w in before || w == key.warehouse {
      PostedAtIff(intakes[key := n], key.donation, w);
      PostedAtIff(intakes, key.donation, w);
    }
    PostedAtIff(intakes, key.donation, key.warehouse);
    assert after == before + {key.warehouse};
  }

  lemma NoWarehouseIff(cfg: Config, db: Db, d: DonationId)
    requires Valid(cfg, db) && d in db.donations
    ensures WarehousesOf(db.intakes, d) == {} <==> db.donations[d].status != Processed
  {
    if SomePosted(db.intakes, d) {
      var k :| IsPosted(db.intakes, k) && k.donation == d;
      assert k.warehouse in WarehousesOf(db.intakes, d);
    }
  }

  lemma VerifiedIntake(cfg: Config, db: Db, key: IntakeKey, today: Day, form: VerifyForm) returns (n: Intake)
    requires CanVerifyIntake(cfg, db, key, today, form)
    ensures n.status == Posted && VerifyIntake(cfg, db, key, today, form).intakes == db.intakes[key := n]
    ensures key.donation in db.donations && !IsPosted(db.intakes, key)
  {
    var items := db.donations[key.donation].items;
    var lines := VerifiedLines(cfg, today, db.intakes[key].lines, items, form);
    n := CommittedIntake(db, key, lines);
    assert VerifyIntake(cfg, db, key, today, form) == CommitPosting(db, key, lines);
  }

  lemma CommittedIntake(db: Db, key: IntakeKey, lines: map<ItemId, Line>) returns (n: Intake)
    requires Awaiting(db, key)
    ensures n.status == Posted && CommitPosting(db, key, lines).intakes == db.intakes[key := n]
  {
    n := Intake(Posted, db.intakes[key].version + 1, lines);
  }

  /**
    Seen before the call: a verification that is accepted makes one more warehouse receive the donation,
    which then has been received more than once exactly if it was already processed.
   */
  lemma ReceivedAgainIff(cfg: Config, db: Db, key: IntakeKey, today: Day, form: VerifyForm)
    requires Valid(cfg, db) && CanVerifyIntake(cfg, db, key, today, form)
    ensures var db' := VerifyIntake(cfg, db, key, today, form);
      && |WarehousesOf(db'.intakes, key.donation)| == |WarehousesOf(db.intakes, key.donation)| + 1
      && (|WarehousesOf(db'.intakes, key.donation)| > 1 <==> db.donations[key.donation].status == Processed)
  {
    var n := VerifiedIntake(cfg, db, key, today, form);
    OneMoreWarehouse(db.intakes, key, n);
    NoWarehouseIff(cfg, db, key.donation);
  }

  // ----- Valuation -----

  datatype LineKey = LineKey(intake: IntakeKey, item: ItemId)

  ghost predicate IsLine(db: Db, k: LineKey)
  {
    k.intake in db.intakes && k.item in db.intakes[k.intake].lines
  }

  /** Recomputed by the report, in hundredths of a cent. */
  function LineValue(db: Db, k: LineKey): int
  {
    if k.intake in db.intakes && k.item in db.intakes[k.intake].lines
    then db.intakes[k.intake].lines[k.item].q.Total() * db.intakes[k.intake].lines[k.item].unitValue
    else 0
  }

  /** Stored with the line, in hundredths of a cent. */
  function LineCost(db: Db, k: LineKey): int
  {
    if k.intake in db.intakes && k.item in db.intakes[k.intake].lines
    then 100 * db.intakes[k.intake].lines[k.item].extCost
    else 0
  }

  lemma LineDrift(cfg: Config, db: Db, k: LineKey)
    requires Valid(cfg, db) && IsLine(db, k)
    ensures -50 <= LineCost(db, k) - LineValue(db, k) <= 50
    ensures cfg.exactCost ==> LineCost(db, k) == LineValue(db, k)
  {
    assert IntakeOk(cfg, db.donations, k.intake, db.intakes[k.intake]);
    assert LineOk(cfg, db.intakes[k.intake].lines[k.item], db.donations[k.intake.donation].items[k.item]);
  }

  /**
    The value the donation report recomputes from quantities and unit values stays within half a
    cent per line of the extended costs stored with the lines, for any selection of lines (such as
    one donor's), and is equal to them under the deployed schema's exact-cost constraint.
   */
  lemma ValuationDrift(cfg: Config, db: Db, actions: seq<Action>, lines: set<LineKey>)
    requires Valid(cfg, db)
    requires forall k :: k in lines ==> IsLine(Run(cfg, db, actions), k)
    ensures var db' := Run(cfg, db, actions);
      var value, cost := SumOver(lines, k => LineValue(db', k)), SumOver(lines, k => LineCost(db', k));
      && cost - 50 * |lines| <= value <= cost + 50 * |lines|
      && (cfg.exactCost ==> value == cost)
  {
    var db' := Run(cfg, db, actions);
    RunKeepsValid(cfg, db, actions);
    var f, g := (k: LineKey) => LineValue(db', k), (k: LineKey) => LineCost(db', k);
    forall k | k in lines ensures f(k) <= g(k) + 50 && g(k) <= f(k) + 50 && (cfg.exactCost ==> f(k) == g(k)) {
      LineDrift(cfg, db', k);
    }
    SumDrift(lines, f, g, 50);
    SumDrift(lines, g, f, 50);
    if cfg.exactCost {
      SumSame(lines, f, g);
    }
  }
}

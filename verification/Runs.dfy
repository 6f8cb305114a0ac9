/**
  Whole runs of the donation workflow: every handler as an action, the invariant every action
  keeps, and the properties of every reachable state.
 */
module Runs {
  import opened Common
  import opened Tables
  import D = Donations
  import opened Intakes
  import opened Ledger

  datatype Action =
    | CreateDonation(id: DonationId, form: D.DonationForm)
    | EditDonation(id: DonationId, version: nat, form: D.DonationForm)
    | VerifyDonation(id: DonationId, submitted: Option<nat>, form: D.DonationForm)
    | DeleteDonation(id: DonationId)
    | AddItem(id: DonationId, item: ItemId, itemForm: D.ItemForm)
    | EditItem(id: DonationId, item: ItemId, itemVersion: int, itemForm: D.ItemForm)
    | DeleteItem(id: DonationId, item: ItemId)
    | SaveIntake(key: IntakeKey, today: Day, entry: EntryForm)
    | PostIntake(key: IntakeKey, today: Day, verify: VerifyForm)

  function Next(cfg: Config, db: Db, a: Action): Db
  {
    match a
    case CreateDonation(id, form) => D.Create(cfg, db, id, form)
    case EditDonation(id, version, form) => D.Edit(cfg, db, id, version, form)
    case VerifyDonation(id, version, form) => D.Verify(cfg, db, id, version, form)
    case DeleteDonation(id) => D.Delete(db, id)
    case AddItem(id, item, form) => D.AddItem(cfg, db, id, item, form)
    case EditItem(id, item, version, form) => D.EditItem(db, id, item, version, form)
    case DeleteItem(id, item) => D.DeleteItem(db, id, item)
    case SaveIntake(key, today, form) => Save(cfg, db, key, today, form)
    case PostIntake(key, today, form) => VerifyIntake(cfg, db, key, today, form)
  }

  /** The state after a sequence of actions; a refused action changes nothing. */
  function Run(cfg: Config, db: Db, actions: seq<Action>): Db
  {
    if actions == [] then db
    else Next(cfg, Run(cfg, db, actions[..|actions| - 1]), actions[|actions| - 1])
  }

  lemma RunAppend(cfg: Config, db: Db, actions: seq<Action>, a: Action)
    ensures Run(cfg, db, actions + [a]) == Next(cfg, Run(cfg, db, actions), a)
  {
    assert (actions + [a])[..|actions|] == actions;
  }

  lemma RunOne(cfg: Config, db: Db, a: Action)
    ensures Run(cfg, db, [a]) == Next(cfg, db, a)
  {
    assert [a] == [] + [a];
    RunAppend(cfg, db, [], a);
  }

  lemma {:induction false} RunConcat(cfg: Config, db: Db, a: seq<Action>, b: seq<Action>)
    ensures Run(cfg, db, a + b) == Run(cfg, Run(cfg, db, a), b)
  {
    if b == [] {
      assert a + b == a;
    } else {
      var n := |b| - 1;
      RunConcat(cfg, db, a, b[..n]);
      RunAppend(cfg, db, a + b[..n], b[n]);
      assert a + b[..n] + [b[n]] == a + b;
    }
  }

  predicate IsPosted(intakes: map<IntakeKey, Intake>, k: IntakeKey)
  {
    k in intakes && intakes[k].status == Posted
  }

  ghost predicate SomePosted(intakes: map<IntakeKey, Intake>, d: DonationId)
  {
    exists k :: IsPosted(intakes, k) && k.donation == d
  }

  ghost predicate IntakeOk(cfg: Config, donations: map<DonationId, Donation>, k: IntakeKey, n: Intake)
  {
    && k.donation in donations
    && donations[k.donation].status != Entered
    && n.lines.Keys == GoodsOf(cfg, donations[k.donation]).Keys
    && forall i :: i in n.lines ==>
         LineOk(cfg, n.lines[i], donations[k.donation].items[i]) &&
         (n.lines[i].status == VerifiedItem <==> n.status == Posted)
  }

  /** The intake shows the posted lines, one version after the one that was read for posting. */
  predicate JournalMatches(n: Intake, p: Posting)
  {
    n.lines == p.lines && n.version == p.version + 1
  }

  ghost predicate JournalOk(intakes: map<IntakeKey, Intake>, journal: seq<Posting>)
  {
    && (forall i, j :: 0 <= i < j < |journal| ==> journal[i].key != journal[j].key)
    && (forall p :: p in journal ==> IsPosted(intakes, p.key) && JournalMatches(intakes[p.key], p))
    && (forall k :: IsPosted(intakes, k) ==> exists p :: p in journal && p.key == k)
  }

  ghost predicate DonationsOk(cfg: Config, donations: map<DonationId, Donation>)
  {
    forall d :: d in donations ==> DonationOk(cfg, donations[d])
  }

  ghost predicate IntakesOk(cfg: Config, donations: map<DonationId, Donation>, intakes: map<IntakeKey, Intake>)
  {
    forall k :: k in intakes ==> IntakeOk(cfg, donations, k, intakes[k])
  }

  /** A donation is processed exactly when some intake of it has been verified. */
  ghost predicate StatusesLinked(donations: map<DonationId, Donation>, intakes: map<IntakeKey, Intake>)
  {
    forall d :: d in donations ==> (donations[d].status == Processed <==> SomePosted(intakes, d))
  }

  ghost predicate Valid(cfg: Config, db: Db)
  {
    && DonationsOk(cfg, db.donations)
    && IntakesOk(cfg, db.donations, db.intakes)
    && StatusesLinked(db.donations, db.intakes)
    && JournalOk(db.intakes, db.journal)
    && Agrees(db.stock)
  }

  // ----- Donation handlers -----

  /**
    A change that stays among entered donations: everything that has left E is as before, nothing
    becomes processed, and no other table moves.
   */
  ghost predicate OnlyEntered(cfg: Config, db: Db, db': Db)
  {
    && db' == db.(donations := db'.donations)
    && (forall d :: d in db.donations && db.donations[d].status != Entered ==>
          d in db'.donations && db'.donations[d] == db.donations[d])
    && (forall d :: d in db'.donations && db'.donations[d].status == Processed ==>
          d in db.donations && db.donations[d] == db'.donations[d])
    && DonationsOk(cfg, db'.donations)
  }

  lemma CreateStays(cfg: Config, db: Db, id: DonationId, form: D.DonationForm)
    requires Valid(cfg, db)
    ensures OnlyEntered(cfg, db, D.Create(cfg, db, id, form))
  {
    if D.CanCreate(cfg, db, id, form) {
      D.PutRowsOk(cfg, D.Creating, map[], form.rows);
    }
  }

  lemma EditStays(cfg: Config, db: Db, id: DonationId, version: nat, form: D.DonationForm)
    requires Valid(cfg, db)
    ensures OnlyEntered(cfg, db, D.Edit(cfg, db, id, version, form))
  {
    if D.CanEdit(cfg, db, id, version, form) {
      var kept := D.Retained(db.donations[id].items, form.rows);
      assert forall i :: i in kept ==> ItemOk(cfg, i, kept[i]);
      D.PutRowsOk(cfg, D.Editing, kept, form.rows);
    }
  }

  lemma VerifyStays(cfg: Config, db: Db, id: DonationId, version: Option<nat>, form: D.DonationForm)
    requires Valid(cfg, db)
    ensures OnlyEntered(cfg, db, D.Verify(cfg, db, id, version, form))
  {
    if D.CanVerify(cfg, db, id, version, form) {
      assert DonationOk(cfg, db.donations[id]);
      D.VerifySettles(cfg, db, id, version, form);
    }
  }

  lemma EditItemStays(cfg: Config, db: Db, id: DonationId, item: ItemId, version: int, form: D.ItemForm)
    requires Valid(cfg, db)
    ensures OnlyEntered(cfg, db, D.EditItem(db, id, item, version, form))
  {
    if D.CanEditItem(db, id, item, version, form) {
      var it := db.donations[id].items[item];
      assert DonationOk(cfg, db.donations[id]);
      assert ItemOk(cfg, item, it);
      assert it.kind == GOODS;
      assert ItemOk(cfg, item, D.EditedItem(it, form));
    }
  }

  lemma DeleteStays(cfg: Config, db: Db, id: DonationId)
    requires Valid(cfg, db)
    ensures OnlyEntered(cfg, db, D.Delete(db, id))
  {
  }

  lemma AddItemStays(cfg: Config, db: Db, id: DonationId, item: ItemId, form: D.ItemForm)
    requires Valid(cfg, db)
    ensures OnlyEntered(cfg, db, D.AddItem(cfg, db, id, item, form))
  {
    if D.CanAddItem(cfg, db, id, item, form) {
      assert DonationOk(cfg, db.donations[id]);
    }
  }

  lemma DeleteItemStays(cfg: Config, db: Db, id: DonationId, item: ItemId)
    requires Valid(cfg, db)
    ensures OnlyEntered(cfg, db, D.DeleteItem(db, id, item))
  {
    if D.CanDeleteItem(db, id, item) {
      assert DonationOk(cfg, db.donations[id]);
    }
  }

  lemma DonationActionStays(cfg: Config, db: Db, a: Action)
    requires Valid(cfg, db)
    requires !a.SaveIntake? && !a.PostIntake?
    ensures OnlyEntered(cfg, db, Next(cfg, db, a))
  {
    match a
    case CreateDonation(id, form) =>
      CreateStays(cfg, db, id, form);
      return;
    case EditDonation(id, version, form) =>
      EditStays(cfg, db, id, version, form);
      return;
    case VerifyDonation(id, version, form) =>
      VerifyStays(cfg, db, id, version, form);
      return;
    case EditItem(id, item, version, form) =>
      EditItemStays(cfg, db, id, item, version, form);
      return;
    case DeleteDonation(id) =>
      DeleteStays(cfg, db, id);
      return;
    case AddItem(id, item, form) =>
      AddItemStays(cfg, db, id, item, form);
      return;
    case DeleteItem(id, item) =>
      DeleteItemStays(cfg, db, id, item);
      return;
  }

  lemma OnlyEnteredKeepsValid(cfg: Config, db: Db, db': Db)
    requires Valid(cfg, db) && OnlyEntered(cfg, db, db')
    ensures Valid(cfg, db')
  {
    forall k | k in db'.intakes ensures IntakeOk(cfg, db'.donations, k, db'.intakes[k]) {
      assert IntakeOk(cfg, db.donations, k, db.intakes[k]);
    }
    forall d | d in db'.donations ensures db'.donations[d].status == Processed <==> SomePosted(db'.intakes, d) {
      if SomePosted(db'.intakes, d) {
        var k :| IsPosted(db.intakes, k) && k.donation == d;
        assert IntakeOk(cfg, db.donations, k, db.intakes[k]);
      }
    }
  }

  // ----- Entry -----

  lemma SaveKeepsValid(cfg: Config, db: Db, key: IntakeKey, today: Day, form: EntryForm)
    requires Valid(cfg, db)
    ensures Valid(cfg, Save(cfg, db, key, today, form))
  {
    if CanSave(cfg, db, key, today, form) {
      var lines := EntryLines(cfg, today, GoodsOf(cfg, db.donations[key.donation]), form);
      assert Save(cfg, db, key, today, form) == CommitEntry(db, key, form.draft, lines);
      SavedIntakeOk(cfg, db, key, today, form);
      EntryKeepsValid(cfg, db, key, form.draft, lines);
    }
  }

  lemma EntryKeepsValid(cfg: Config, db: Db, key: IntakeKey, draft: bool, lines: map<ItemId, Line>)
    requires Valid(cfg, db) && Reenterable(db.intakes, key)
    requires IntakeOk(cfg, db.donations, key, CommitEntry(db, key, draft, lines).intakes[key])
    ensures Valid(cfg, CommitEntry(db, key, draft, lines))
  {
    var db' := CommitEntry(db, key, draft, lines);
    assert forall k :: IsPosted(db'.intakes, k) <==> IsPosted(db.intakes, k);
    SamePostedLinks(db.donations, db.intakes, db'.intakes);
    IntakesStayOk(cfg, db.donations, db.intakes, key, db'.intakes[key]);
    JournalStaysOk(db.intakes, db.journal, key, db'.intakes[key]);
  }

  lemma IntakesStayOk(
    cfg: Config, donations: map<DonationId, Donation>, intakes: map<IntakeKey, Intake>, key: IntakeKey, n: Intake)
    requires IntakesOk(cfg, donations, intakes) && IntakeOk(cfg, donations, key, n)
    ensures IntakesOk(cfg, donations, intakes[key := n])
  {
  }

  lemma JournalStaysOk(intakes: map<IntakeKey, Intake>, journal: seq<Posting>, key: IntakeKey, n: Intake)
    requires JournalOk(intakes, journal) && !IsPosted(intakes, key) && n.status != Posted
    ensures JournalOk(intakes[key := n], journal)
  {
    var intakes' := intakes[key := n];
    forall p | p in journal ensures IsPosted(intakes', p.key) && JournalMatches(intakes'[p.key], p) {
      assert IsPosted(intakes, p.key);
    }
    forall k | IsPosted(intakes', k) ensures exists p :: p in journal && p.key == k {
      assert IsPosted(intakes, k);
    }
  }

  lemma SamePostedLinks(
    donations: map<DonationId, Donation>, intakes: map<IntakeKey, Intake>, intakes': map<IntakeKey, Intake>)
    requires StatusesLinked(donations, intakes)
    requires forall k :: IsPosted(intakes', k) <==> IsPosted(intakes, k)
    ensures StatusesLinked(donations, intakes')
  {
    forall d | d in donations ensures SomePosted(intakes', d) <==> SomePosted(intakes, d) {
    }
  }

  lemma SavedIntakeOk(cfg: Config, db: Db, key: IntakeKey, today: Day, form: EntryForm)
    requires CanSave(cfg, db, key, today, form)
    ensures IntakeOk(cfg, db.donations, key, Save(cfg, db, key, today, form).intakes[key])
  {
    var goods := GoodsOf(cfg, db.donations[key.donation]);
    var lines := EntryLines(cfg, today, goods, form);
    forall i | i in lines ensures LineOk(cfg, lines[i], db.donations[key.donation].items[i]) {
      EntryLineOk(cfg, cfg.items[i], today, form.lines[i], goods[i]);
    }
  }

  // ----- Verification and posting -----

  /** Verified lines, each accounting for its donated item. */
  ghost predicate LinesSettled(cfg: Config, lines: map<ItemId, Line>, items: map<ItemId, DonationItem>)
  {
    forall i :: i in lines ==> i in items && LineOk(cfg, lines[i], items[i]) && lines[i].status == VerifiedItem
  }

  /** The lines that a verification writes account for the same donated quantities as the entered ones. */
  lemma VerifiedLinesOk(
    cfg: Config, today: Day, lines: map<ItemId, Line>, items: map<ItemId, DonationItem>, form: VerifyForm)
    requires forall i :: i in lines ==> i in items && LineOk(cfg, lines[i], items[i])
    requires VerifyAccepted(cfg, today, lines, items, form)
    requires LinesStorable(cfg, VerifiedLines(cfg, today, lines, items, form))
    ensures VerifiedLines(cfg, today, lines, items, form).Keys == lines.Keys
    ensures LinesSettled(cfg, VerifiedLines(cfg, today, lines, items, form), items)
  {
    var after := VerifiedLines(cfg, today, lines, items, form);
    assert after.Keys == lines.Keys;
    forall i | i in after ensures LineOk(cfg, after[i], items[i]) && after[i].status == VerifiedItem {
      assert after[i] == VerifyResult(cfg, today, lines, items, form, i).value;
      var canExpire := i in cfg.items && cfg.items[i].canExpire;
      VerificationReclassifies(cfg, canExpire, today, lines[i], items[i], FormLine(form, i));
    }
  }

  lemma PostJournal(intakes: map<IntakeKey, Intake>, journal: seq<Posting>, key: IntakeKey, n: Intake, p: Posting)
    requires JournalOk(intakes, journal) && !IsPosted(intakes, key)
    requires n.status == Posted && p.key == key && JournalMatches(n, p)
    ensures JournalOk(intakes[key := n], journal + [p])
  {
    var intakes' := intakes[key := n];
    forall k | IsPosted(intakes', k) ensures exists q :: q in journal + [p] && q.key == k {
      if k == key {
        assert p in journal + [p];
      } else {
        assert IsPosted(intakes, k);
        var q :| q in journal && q.key == k;
        assert q in journal + [p];
      }
    }
  }

  lemma PostLinksStatuses(donations: map<DonationId, Donation>, intakes: map<IntakeKey, Intake>, key: IntakeKey,
                          d: Donation, n: Intake)
    requires StatusesLinked(donations, intakes) && !IsPosted(intakes, key)
    requires d.status == Processed && n.status == Posted
    ensures StatusesLinked(donations[key.donation := d], intakes[key := n])
  {
    var intakes' := intakes[key := n];
    assert IsPosted(intakes', key);
    assert forall k :: k != key ==> (IsPosted(intakes', k) <==> IsPosted(intakes, k));
  }

  /**
    Replacing one intake by its verified form, and its donation by the processed one, keeps all
    intakes well-formed.
   */
  lemma PostIntakesOk(
    cfg: Config, donations: map<DonationId, Donation>, intakes: map<IntakeKey, Intake>, key: IntakeKey,
    d: Donation, n: Intake)
    requires IntakesOk(cfg, donations, intakes) && key in intakes && key.donation in donations
    requires d.status == Processed && d.items == donations[key.donation].items
    requires n.status == Posted && n.lines.Keys == intakes[key].lines.Keys
    requires LinesSettled(cfg, n.lines, d.items)
    ensures IntakesOk(cfg, donations[key.donation := d], intakes[key := n])
  {
    assert IntakeOk(cfg, donations, key, intakes[key]);
    assert GoodsOf(cfg, d) == GoodsOf(cfg, donations[key.donation]);
    forall k | k in intakes && k != key ensures IntakeOk(cfg, donations[key.donation := d], k, intakes[k]) {
      assert IntakeOk(cfg, donations, k, intakes[k]);
    }
  }

  lemma PostDonationsOk(cfg: Config, donations: map<DonationId, Donation>, id: DonationId, d: Donation)
    requires DonationsOk(cfg, donations) && id in donations
    requires donations[id].status != Entered && d.items == donations[id].items
    ensures DonationsOk(cfg, donations[id := d])
  {
    assert DonationOk(cfg, donations[id]);
  }

  /** A commit whose lines account for the donated quantities keeps the whole state consistent. */
  lemma CommitKeepsValid(cfg: Config, db: Db, key: IntakeKey, lines: map<ItemId, Line>)
    requires Valid(cfg, db) && Awaiting(db, key)
    requires lines.Keys == db.intakes[key].lines.Keys
    requires LinesSettled(cfg, lines, db.donations[key.donation].items)
    ensures Valid(cfg, CommitPosting(db, key, lines))
  {
    var db' := CommitPosting(db, key, lines);
    var d, n := db'.donations[key.donation], db'.intakes[key];
    assert IntakeOk(cfg, db.donations, key, db.intakes[key]);
    PostDonationsOk(cfg, db.donations, key.donation, d);
    PostIntakesOk(cfg, db.donations, db.intakes, key, d, n);
    PostLinksStatuses(db.donations, db.intakes, key, d, n);
    PostJournal(db.intakes, db.journal, key, n, db'.journal[|db.journal|]);
    PostKeepsAgreement(db.stock, key.warehouse, lines);
  }

  lemma PostKeepsValid(cfg: Config, db: Db, key: IntakeKey, today: Day, form: VerifyForm)
    requires Valid(cfg, db)
    ensures Valid(cfg, VerifyIntake(cfg, db, key, today, form))
  {
    if CanVerifyIntake(cfg, db, key, today, form) {
      var items, lines := db.donations[key.donation].items, db.intakes[key].lines;
      assert IntakeOk(cfg, db.donations, key, db.intakes[key]);
      VerifiedLinesOk(cfg, today, lines, items, form);
      CommitKeepsValid(cfg, db, key, VerifiedLines(cfg, today, lines, items, form));
    }
  }

  // ----- The invariant over runs -----

  /** Every handler keeps the invariant, whatever it is given. */
  lemma NextKeepsValid(cfg: Config, db: Db, a: Action)
    requires Valid(cfg, db)
    ensures Valid(cfg, Next(cfg, db, a))
  {
    match a
    case SaveIntake(key, today, form) => SaveKeepsValid(cfg, db, key, today, form);
    case PostIntake(key, today, form) => PostKeepsValid(cfg, db, key, today, form);
    case _ =>
      DonationActionStays(cfg, db, a);
      OnlyEnteredKeepsValid(cfg, db, Next(cfg, db, a));
  }

  /**
    Every reachable state is consistent: the linked status machines of donations and intakes, the
    item rules, the journal, and the agreement of the two stock tables.
   */
  lemma {:induction false} RunKeepsValid(cfg: Config, db: Db, actions: seq<Action>)
    requires Valid(cfg, db)
    ensures Valid(cfg, Run(cfg, db, actions))
  {
    if actions != [] {
      RunKeepsValid(cfg, db, actions[..|actions| - 1]);
      NextKeepsValid(cfg, Run(cfg, db, actions[..|actions| - 1]), actions[|actions| - 1]);
    }
  }

  /** A donation that has left E keeps its items and never returns; once P it stays P. */
  ghost predicate DonationsFrozen(before: map<DonationId, Donation>, after: map<DonationId, Donation>)
  {
    forall d :: d in before && before[d].status != Entered ==>
      && d in after
      && after[d].items == before[d].items
      && after[d].status != Entered
      && (before[d].status == Processed ==> after[d].status == Processed)
  }

  /** Intakes are never deleted, every change raises the version, and a verified intake never changes. */
  ghost predicate IntakesFrozen(before: map<IntakeKey, Intake>, after: map<IntakeKey, Intake>)
  {
    forall k :: k in before ==>
      && k in after
      && (after[k] == before[k] || before[k].version < after[k].version)
      && (before[k].status == Posted ==> after[k] == before[k])
  }

  /** What time cannot undo. */
  ghost predicate Frozen(db: Db, db': Db)
  {
    DonationsFrozen(db.donations, db'.donations) && IntakesFrozen(db.intakes, db'.intakes) && db.journal <= db'.journal
  }

  lemma SaveFreezes(cfg: Config, db: Db, a: Action)
    requires a.SaveIntake?
    ensures Frozen(db, Next(cfg, db, a))
  {
  }

  lemma ReplaceFreezes(
    donations: map<DonationId, Donation>, intakes: map<IntakeKey, Intake>, key: IntakeKey, d: Donation, n: Intake)
    requires key in intakes && key.donation in donations
    requires d.items == donations[key.donation].items && d.status == Processed
    requires intakes[key].status != Posted && intakes[key].version < n.version
    ensures DonationsFrozen(donations, donations[key.donation := d])
    ensures IntakesFrozen(intakes, intakes[key := n])
  {
  }

  lemma CommitFreezes(db: Db, key: IntakeKey, lines: map<ItemId, Line>)
    requires Awaiting(db, key)
    ensures Frozen(db, CommitPosting(db, key, lines))
  {
    var db' := CommitPosting(db, key, lines);
    ReplaceFreezes(db.donations, db.intakes, key, db'.donations[key.donation], db'.intakes[key]);
  }

  lemma PostFreezes(cfg: Config, db: Db, a: Action)
    requires a.PostIntake?
    ensures Frozen(db, Next(cfg, db, a))
  {
    assert Next(cfg, db, a) == VerifyIntake(cfg, db, a.key, a.today, a.verify);
    VerifyFreezes(cfg, db, a.key, a.today, a.verify);
  }

  lemma VerifyFreezes(cfg: Config, db: Db, key: IntakeKey, today: Day, form: VerifyForm)
    ensures Frozen(db, VerifyIntake(cfg, db, key, today, form))
  {
    if CanVerifyIntake(cfg, db, key, today, form) {
      CommitFreezes(db, key,
        VerifiedLines(cfg, today, db.intakes[key].lines, db.donations[key.donation].items, form));
    }
  }

  lemma DonationActionFreezes(cfg: Config, db: Db, a: Action)
    requires Valid(cfg, db) && !a.SaveIntake? && !a.PostIntake?
    ensures Frozen(db, Next(cfg, db, a))
  {
    DonationActionStays(cfg, db, a);
  }

  lemma NextFreezes(cfg: Config, db: Db, a: Action)
    requires Valid(cfg, db)
    ensures Frozen(db, Next(cfg, db, a))
  {
    if a.SaveIntake? {
      SaveFreezes(cfg, db, a);
    } else if a.PostIntake? {
      PostFreezes(cfg, db, a);
    } else {
      DonationActionFreezes(cfg, db, a);
    }
  }

  lemma FrozenTwice(a: Db, b: Db, c: Db)
    requires Frozen(a, b) && Frozen(b, c)
    ensures Frozen(a, c)
  {
  }

  /**
    Once a donation is verified its items never change again and it never returns to entry; once an
    intake is verified neither it nor its lines ever change, and the journal only grows.
   */
  lemma {:induction false} RunFreezes(cfg: Config, db: Db, actions: seq<Action>)
    requires Valid(cfg, db)
    ensures Frozen(db, Run(cfg, db, actions))
  {
    if actions != [] {
      var before := Run(cfg, db, actions[..|actions| - 1]);
      RunKeepsValid(cfg, db, actions[..|actions| - 1]);
      RunFreezes(cfg, db, actions[..|actions| - 1]);
      NextFreezes(cfg, before, actions[|actions| - 1]);
      FrozenTwice(db, before, Next(cfg, before, actions[|actions| - 1]));
    }
  }

  /**
    Once a donation has left E, selecting its items by catalogue category, as intakes do, selects
    exactly those of type GOODS.
   */
  lemma GoodsFilterExact(cfg: Config, db: Db, actions: seq<Action>, d: DonationId)
    requires Valid(cfg, db)
    requires d in Run(cfg, db, actions).donations && Run(cfg, db, actions).donations[d].status != Entered
    ensures var donation := Run(cfg, db, actions).donations[d];
      GoodsOf(cfg, donation) == map i | i in donation.items && donation.items[i].kind == GOODS :: donation.items[i]
  {
    RunKeepsValid(cfg, db, actions);
    assert DonationOk(cfg, Run(cfg, db, actions).donations[d]);
  }
}

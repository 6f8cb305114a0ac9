/**
  What the version checks do not exclude: the entry handler only admits verified donations, but
  nothing re-reads the donation when the entry commits.
 */
module Races {
  import opened Common
  import opened Tables
  import opened Intakes
  import opened Runs
  import opened Feasibility
  import opened IntakeSessions

  /** An editor opens intake `k2`; a verifier then posts intake `k1` of the same donation; the editor submits. */
  function LateEntry(goods: map<ItemId, DonationItem>, k1: IntakeKey, k2: IntakeKey, today: Day): seq<Step>
  {
    Verifier(k1, k2, today) + [SubmitEntry(0, today, PlainEntry(goods, today))]
  }

  function Verifier(k1: IntakeKey, k2: IntakeKey, today: Day): seq<Step>
  {
    Reads(k1, k2) + [SubmitVerification(1, today, map[])]
  }

  function Reads(k1: IntakeKey, k2: IntakeKey): seq<Step>
  {
    [OpenEntry(0, k2)] + [OpenVerification(1, k1)] + [ReadDonation(1)] + [ReadLines(1)]
  }

  lemma WorldAppend(cfg: Config, w: World, steps: seq<Step>, step: Step)
    ensures RunWorld(cfg, w, steps + [step]) == NextWorld(cfg, RunWorld(cfg, w, steps), step)
  {
    assert (steps + [step])[..|steps|] == steps;
  }

  lemma LateEntrySteps(
    cfg: Config, w: World, goods: map<ItemId, DonationItem>, k1: IntakeKey, k2: IntakeKey, today: Day)
    ensures RunWorld(cfg, w, LateEntry(goods, k1, k2, today)) ==
            NextWorld(cfg, NextWorld(cfg, RunWorld(cfg, w, Reads(k1, k2)), SubmitVerification(1, today, map[])),
                      SubmitEntry(0, today, PlainEntry(goods, today)))
  {
    WorldAppend(cfg, w, Reads(k1, k2), SubmitVerification(1, today, map[]));
    WorldAppend(cfg, w, Verifier(k1, k2, today), SubmitEntry(0, today, PlainEntry(goods, today)));
  }

  /** The session of a verifier that has read everything at the current versions. */
  function CurrentReader(db: Db, key: IntakeKey): Session
    requires Awaiting(db, key)
  {
    LinesRead(key, db.intakes[key].version, db.donations[key.donation].version, db.intakes[key].lines,
        db.donations[key.donation].items)
  }

  lemma AfterReads(cfg: Config, db: Db, k1: IntakeKey, k2: IntakeKey) returns (w: World)
    requires Awaiting(db, k1) && EntryGuards(cfg, db, k2) && k2 !in db.intakes
    ensures w == RunWorld(cfg, World(db, map[]), Reads(k1, k2)) && w.db == db
    ensures 0 in w.sessions && w.sessions[0] == Entering(k2, None)
    ensures 1 in w.sessions && w.sessions[1] == CurrentReader(db, k1)
  {
    w := World(db, map[]);
    assert w == RunWorld(cfg, w, []) && [] + [OpenEntry(0, k2)] == [OpenEntry(0, k2)];
    WorldAppend(cfg, w, [], OpenEntry(0, k2));
    WorldAppend(cfg, w, [OpenEntry(0, k2)], OpenVerification(1, k1));
    WorldAppend(cfg, w, [OpenEntry(0, k2)] + [OpenVerification(1, k1)], ReadDonation(1));
    WorldAppend(cfg, w, [OpenEntry(0, k2)] + [OpenVerification(1, k1)] + [ReadDonation(1)], ReadLines(1));
    w := RunWorld(cfg, w, Reads(k1, k2));
  }

  lemma UntouchedCommit(cfg: Config, db: Db, key: IntakeKey, today: Day) returns (lines: map<ItemId, Line>)
    requires Valid(cfg, db) && Awaiting(db, key)
    ensures VerificationCommitted(cfg, db, CurrentReader(db, key), today, map[]) == CommitPosting(db, key, lines)
  {
    lines := VerifiedLines(cfg, today, db.intakes[key].lines, db.donations[key.donation].items, map[]);
    UntouchedVerificationAccepted(cfg, db, key, today);
  }

  lemma CommitProcesses(db: Db, key: IntakeKey, other: IntakeKey, lines: map<ItemId, Line>)
    requires Awaiting(db, key) && other !in db.intakes
    ensures var db' := CommitPosting(db, key, lines);
      && other !in db'.intakes
      && key.donation in db'.donations && db'.donations[key.donation].status == Processed
      && db'.donations[key.donation].items == db.donations[key.donation].items
  {
  }

  lemma SubmitVerificationWorld(cfg: Config, w: World, sid: nat, today: Day, form: VerifyForm)
    requires sid in w.sessions && w.sessions[sid].LinesRead?
    ensures NextWorld(cfg, w, SubmitVerification(sid, today, form)) ==
            World(VerificationCommitted(cfg, w.db, w.sessions[sid], today, form), w.sessions - {sid})
  {
  }

  lemma AfterVerification(cfg: Config, w: World, k1: IntakeKey, k2: IntakeKey, today: Day) returns (w': World)
    requires Valid(cfg, w.db) && Awaiting(w.db, k1) && k2 !in w.db.intakes
    requires 0 in w.sessions && w.sessions[0] == Entering(k2, None)
    requires 1 in w.sessions && w.sessions[1] == CurrentReader(w.db, k1)
    ensures w' == NextWorld(cfg, w, SubmitVerification(1, today, map[]))
    ensures 0 in w'.sessions && w'.sessions[0] == Entering(k2, None) && k2 !in w'.db.intakes
    ensures k1.donation in w'.db.donations && w'.db.donations[k1.donation].status == Processed
    ensures w'.db.donations[k1.donation].items == w.db.donations[k1.donation].items
  {
    var lines := VerificationWorld(cfg, w, k1, today);
    w' := World(CommitPosting(w.db, k1, lines), w.sessions - {1});
    CommitProcesses(w.db, k1, k2, lines);
  }

  lemma VerificationWorld(cfg: Config, w: World, key: IntakeKey, today: Day) returns (lines: map<ItemId, Line>)
    requires Valid(cfg, w.db) && Awaiting(w.db, key)
    requires 1 in w.sessions && w.sessions[1] == CurrentReader(w.db, key)
    ensures NextWorld(cfg, w, SubmitVerification(1, today, map[])) ==
              World(CommitPosting(w.db, key, lines), w.sessions - {1})
  {
    lines := UntouchedCommit(cfg, w.db, key, today);
    SubmitVerificationWorld(cfg, w, 1, today, map[]);
  }

  lemma AfterLateEntry(cfg: Config, w: World, key: IntakeKey, today: Day) returns (w': World)
    requires 0 in w.sessions && w.sessions[0] == Entering(key, None)
    requires OpenForEntry(cfg, w.db, key) && key !in w.db.intakes
    requires w.db.donations[key.donation].status == Processed
    requires AllPositive(GoodsOf(cfg, w.db.donations[key.donation]))
    ensures w' == NextWorld(cfg, w,
        SubmitEntry(0, today, PlainEntry(GoodsOf(cfg, w.db.donations[key.donation]), today)))
    ensures w'.db.donations == w.db.donations
    ensures key in w'.db.intakes && w'.db.intakes[key].status == Submitted
  {
    var goods := GoodsOf(cfg, w.db.donations[key.donation]);
    w' := NextWorld(cfg, w, SubmitEntry(0, today, PlainEntry(goods, today)));
    PlainEntryAccepted(cfg, w.db, key, today);
  }

  /** The last two steps, from the state in which both sessions have read. */
  lemma AfterBoth(cfg: Config, w: World, k1: IntakeKey, k2: IntakeKey, today: Day, goods: map<ItemId, DonationItem>)
    requires Valid(cfg, w.db) && k1.donation == k2.donation
    requires Awaiting(w.db, k1) && EntryGuards(cfg, w.db, k2) && k2 !in w.db.intakes
    requires goods == GoodsOf(cfg, w.db.donations[k2.donation]) && AllPositive(goods)
    requires 0 in w.sessions && w.sessions[0] == Entering(k2, None)
    requires 1 in w.sessions && w.sessions[1] == CurrentReader(w.db, k1)
    ensures var posted := NextWorld(cfg, w, SubmitVerification(1, today, map[]));
      EnteredLate(NextWorld(cfg, posted, SubmitEntry(0, today, PlainEntry(goods, today))).db, k2)
  {
    var w' := AfterVerification(cfg, w, k1, k2, today);
    assert GoodsOf(cfg, w'.db.donations[k2.donation]) == goods;
    var w'' := AfterLateEntry(cfg, w', k2, today);
  }

  /** An intake awaits verification although its donation is processed already. */
  predicate EnteredLate(db: Db, key: IntakeKey)
  {
    Awaiting(db, key) && db.donations[key.donation].status == Processed
  }

  /**
    A submitted intake of a donation being verified while another warehouse's entry is open leads to
    an intake saved for a donation that is already processed, which the handler's own guard refuses.
   */
  lemma EntryForProcessedDonation(
    cfg: Config, db: Db, k1: IntakeKey, k2: IntakeKey, today: Day) returns (steps: seq<Step>)
    requires Valid(cfg, db) && k1.donation == k2.donation
    requires Awaiting(db, k1) && EntryGuards(cfg, db, k2) && k2 !in db.intakes
    requires AllPositive(GoodsOf(cfg, db.donations[k1.donation]))
    ensures EnteredLate(RunWorld(cfg, World(db, map[]), steps).db, k2)
  {
    var goods := GoodsOf(cfg, db.donations[k1.donation]);
    steps := LateEntry(goods, k1, k2, today);
    LateEntrySteps(cfg, World(db, map[]), goods, k1, k2, today);
    var w := AfterReads(cfg, db, k1, k2);
    AfterBoth(cfg, w, k1, k2, today, goods);
  }

  // ----- Exactly when an entry is late -----

  /** Some intake of the donation was verified between two states. */
  ghost predicate PostedSince(before: Db, after: Db, d: DonationId)
  {
    |before.journal| <= |after.journal| && exists p :: p in after.journal[|before.journal|..] && p.key.donation == d
  }

  ghost predicate IsProcessed(db: Db, d: DonationId)
  {
    d in db.donations && db.donations[d].status == Processed
  }

  /** A consistent state shows a donation as processed exactly if its journal has a posting of it. */
  lemma ProcessedIffJournalled(cfg: Config, db: Db, d: DonationId)
    requires Valid(cfg, db)
    ensures IsProcessed(db, d) <==> exists p :: p in db.journal && p.key.donation == d
  {
    if IsProcessed(db, d) {
      var k :| IsPosted(db.intakes, k) && k.donation == d;
    }
    if p :| p in db.journal && p.key.donation == d {
      assert IsPosted(db.intakes, p.key);
      assert IntakeOk(cfg, db.donations, p.key, db.intakes[p.key]);
    }
  }

  /** Under every interleaving, a donation becomes processed exactly if one of its intakes is posted meanwhile. */
  lemma BecomesProcessedIff(cfg: Config, w: World, steps: seq<Step>, d: DonationId)
    requires Valid(cfg, w.db) && SessionsOk(cfg, w) && !IsProcessed(w.db, d)
    ensures IsProcessed(RunWorld(cfg, w, steps).db, d) <==> PostedSince(w.db, RunWorld(cfg, w, steps).db, d)
  {
    var db' := RunWorld(cfg, w, steps).db;
    InterleavingIsSequential(cfg, w, steps);
    RunKeepsValid(cfg, w.db, Trace(cfg, w, steps));
    RunFreezes(cfg, w.db, Trace(cfg, w, steps));
    ProcessedIffJournalled(cfg, w.db, d);
    ProcessedIffJournalled(cfg, db', d);
    JournalSplit(w.db.journal, db'.journal);
  }

  lemma JournalSplit(before: seq<Posting>, after: seq<Posting>)
    requires before <= after
    ensures forall p :: p in after <==> p in before || p in after[|before|..]
  {
    assert after == before + after[|before|..];
  }

  /** The session has opened the entry, and its submission commits in the given world. */
  predicate EntryCommits(cfg: Config, w: World, sid: nat, key: IntakeKey, today: Day, form: EntryForm)
  {
    && sid in w.sessions && w.sessions[sid].Entering? && w.sessions[sid].key == key
    && NextWorld(cfg, w, SubmitEntry(sid, today, form)).db != w.db
  }

  /**
    An entry is opened while its donation is verified, and commits some steps of other sessions later.
    It is late, that is, made for a processed donation, exactly if one of the donation's intakes was
    posted in between.
   */
  lemma EntryLateIff(cfg: Config, w: World, sid: nat, key: IntakeKey, steps: seq<Step>, today: Day, form: EntryForm)
    requires Valid(cfg, w.db) && SessionsOk(cfg, w) && EntryGuards(cfg, w.db, key)
    requires EntryCommits(cfg, RunWorld(cfg, w, [OpenEntry(sid, key)] + steps), sid, key, today, form)
    ensures var w' := RunWorld(cfg, w, [OpenEntry(sid, key)] + steps);
            var db' := NextWorld(cfg, w', SubmitEntry(sid, today, form)).db;
            && key in db'.intakes
            && (IsProcessed(db', key.donation) <==> PostedSince(w.db, w'.db, key.donation))
  {
    var w' := RunWorld(cfg, w, [OpenEntry(sid, key)] + steps);
    BecomesProcessedIff(cfg, w, [OpenEntry(sid, key)] + steps, key.donation);
    CommittedEntry(cfg, w', sid, key, today, form);
  }

  lemma CommittedEntry(cfg: Config, w: World, sid: nat, key: IntakeKey, today: Day, form: EntryForm)
    requires EntryCommits(cfg, w, sid, key, today, form)
    ensures var db' := NextWorld(cfg, w, SubmitEntry(sid, today, form)).db;
            key in db'.intakes && db'.donations == w.db.donations
  {
  }
}

/**
  Concurrent intake work. An entry is two steps and a verification four: what the handler reads, at
  separate moments, and one commit. A commit succeeds only if the rows it updates still have the
  version it read (compare-and-swap), and steps of all sessions interleave freely.
 */
module IntakeSessions {
  import opened Common
  import opened Tables
  import opened Intakes
  import opened Runs
  import opened Conservation

  datatype Session =
    | Entering(key: IntakeKey, base: Option<nat>)
    | HeaderRead(key: IntakeKey, version: nat)
    | DonationRead(key: IntakeKey, version: nat, donationVersion: nat)
    | LinesRead(
        key: IntakeKey, version: nat, donationVersion: nat,
        lines: map<ItemId, Line>, items: map<ItemId, DonationItem>)

  datatype World = World(db: Db, sessions: map<nat, Session>)

  datatype Step =
    | Handle(action: Action)
    | OpenEntry(sid: nat, key: IntakeKey)
    | SubmitEntry(sid: nat, today: Day, entry: EntryForm)
    | OpenVerification(sid: nat, key: IntakeKey)
    | ReadDonation(sid: nat)
    | ReadLines(sid: nat)
    | SubmitVerification(sid: nat, today: Day, verify: VerifyForm)

  /** The intake an entry session read is still the one in the table: same version, or still absent. */
  predicate BaseCurrent(intakes: map<IntakeKey, Intake>, key: IntakeKey, base: Option<nat>)
  {
    match base
    case None => key !in intakes
    case Some(v) => key in intakes && intakes[key].version == v
  }

  function EntryCommitted(cfg: Config, db: Db, s: Session, today: Day, form: EntryForm): Db
    requires s.Entering?
  {
    if s.key.donation !in db.donations then db else
    var goods := GoodsOf(cfg, db.donations[s.key.donation]);
    if EntryStorable(cfg, today, goods, form) && BaseCurrent(db.intakes, s.key, s.base)
    then CommitEntry(db, s.key, form.draft, EntryLines(cfg, today, goods, form))
    else db
  }

  predicate VersionsCurrent(db: Db, s: Session)
    requires s.LinesRead?
  {
    && s.key in db.intakes && db.intakes[s.key].version == s.version
    && s.key.donation in db.donations && db.donations[s.key.donation].version == s.donationVersion
  }

  /** The verification commit works on the lines and items the session read, not on the tables. */
  function VerificationCommitted(cfg: Config, db: Db, s: Session, today: Day, form: VerifyForm): Db
    requires s.LinesRead?
  {
    if LinesVerifiable(cfg, today, s.lines, s.items, form) && VersionsCurrent(db, s)
    then CommitPosting(db, s.key, VerifiedLines(cfg, today, s.lines, s.items, form))
    else db
  }

  /** What a step does to the tables. */
  function StepDb(cfg: Config, w: World, step: Step): Db
  {
    match step
    case Handle(a) => if a.SaveIntake? || a.PostIntake? then w.db else Next(cfg, w.db, a)
    case SubmitEntry(sid, today, form) =>
      if sid in w.sessions && w.sessions[sid].Entering?
      then EntryCommitted(cfg, w.db, w.sessions[sid], today, form) else w.db
    case SubmitVerification(sid, today, form) =>
      if sid in w.sessions && w.sessions[sid].LinesRead?
      then VerificationCommitted(cfg, w.db, w.sessions[sid], today, form) else w.db
    case _ => w.db
  }

  /** The session a read step leads to, if its guards let it through. */
  function Read(cfg: Config, db: Db, sessions: map<nat, Session>, step: Step): Option<Session>
  {
    match step
    case OpenEntry(_, key) =>
      if EntryGuards(cfg, db, key)
      then Some(Entering(key, if key in db.intakes then Some(db.intakes[key].version) else None))
      else None
    case OpenVerification(_, key) =>
      if key in db.intakes && db.intakes[key].status == Submitted
      then Some(HeaderRead(key, db.intakes[key].version))
      else None
    case ReadDonation(sid) =>
      if sid in sessions && sessions[sid].HeaderRead? then ReadDonationVersion(db, sessions[sid]) else None
    case ReadLines(sid) =>
      if sid in sessions && sessions[sid].DonationRead? then ReadRows(db, sessions[sid]) else None
    case _ => None
  }

  function ReadDonationVersion(db: Db, s: Session): Option<Session>
    requires s.HeaderRead?
  {
    if s.key.donation !in db.donations then None
    else Some(DonationRead(s.key, s.version, db.donations[s.key.donation].version))
  }

  function ReadRows(db: Db, s: Session): Option<Session>
    requires s.DonationRead?
  {
    if s.key !in db.intakes || s.key.donation !in db.donations then None
    else Some(LinesRead(s.key, s.version, s.donationVersion, db.intakes[s.key].lines,
        db.donations[s.key.donation].items))
  }

  /** What a step does to the sessions: a read moves its session on, a commit ends it. */
  function StepSessions(cfg: Config, w: World, step: Step): map<nat, Session>
  {
    if step.Handle? then w.sessions
    else if step.SubmitEntry? || step.SubmitVerification? then w.sessions - {step.sid}
    else
      var s := Read(cfg, w.db, w.sessions, step);
      if s.Some? then w.sessions[step.sid := s.value] else w.sessions
  }

  function NextWorld(cfg: Config, w: World, step: Step): World
  {
    World(StepDb(cfg, w, step), StepSessions(cfg, w, step))
  }

  function RunWorld(cfg: Config, w: World, steps: seq<Step>): World
  {
    if steps == [] then w
    else NextWorld(cfg, RunWorld(cfg, w, steps[..|steps| - 1]), steps[|steps| - 1])
  }

  // ----- What a session may still rely on -----

  /** What was read at an older version may be outdated; at the current version it is current. */
  ghost predicate Current(db: Db, key: IntakeKey, version: nat)
  {
    && key in db.intakes
    && version <= db.intakes[key].version
    && (version == db.intakes[key].version ==> db.intakes[key].status == Submitted)
  }

  ghost predicate SettledDonation(db: Db, d: DonationId)
  {
    d in db.donations && db.donations[d].status != Entered
  }

  ghost predicate SessionOk(cfg: Config, db: Db, s: Session)
  {
    && SettledDonation(db, s.key.donation)
    && match s {
         case Entering(key, base) =>
           && key.warehouse in cfg.warehouses && cfg.warehouses[key.warehouse]
           && (base.Some? ==>
                 && key in db.intakes
                 && base.value <= db.intakes[key].version
                 && (base.value == db.intakes[key].version ==> db.intakes[key].status != Posted))
         case HeaderRead(key, version) => Current(db, key, version)
         case DonationRead(key, version, _) => Current(db, key, version)
         case LinesRead(key, version, _, lines, items) =>
           && Current(db, key, version)
           && items == db.donations[key.donation].items
           && (version == db.intakes[key].version ==> lines == db.intakes[key].lines)
       }
  }

  ghost predicate SessionsOk(cfg: Config, w: World)
  {
    forall sid :: sid in w.sessions ==> SessionOk(cfg, w.db, w.sessions[sid])
  }

  lemma SessionSurvives(cfg: Config, db: Db, db': Db, s: Session)
    requires SessionOk(cfg, db, s) && Frozen(db, db')
    ensures SessionOk(cfg, db', s)
  {
  }

  // ----- Every interleaving is a sequential run -----

  /** The sequential action a step amounts to, if its commit succeeds. */
  function ActionOf(w: World, step: Step): seq<Action>
  {
    match step
    case Handle(a) => if a.SaveIntake? || a.PostIntake? then [] else [a]
    case SubmitEntry(sid, today, form) =>
      if sid in w.sessions && w.sessions[sid].Entering?
        && BaseCurrent(w.db.intakes, w.sessions[sid].key, w.sessions[sid].base)
      then [SaveIntake(w.sessions[sid].key, today, form)] else []
    case SubmitVerification(sid, today, form) =>
      if sid in w.sessions && w.sessions[sid].LinesRead? && VersionsCurrent(w.db, w.sessions[sid])
      then [PostIntake(w.sessions[sid].key, today, form)] else []
    case _ => []
  }

  function Trace(cfg: Config, w: World, steps: seq<Step>): seq<Action>
  {
    if steps == [] then []
    else
      var n := |steps| - 1;
      Trace(cfg, w, steps[..n]) + ActionOf(RunWorld(cfg, w, steps[..n]), steps[n])
  }

  lemma EntryIsSave(cfg: Config, db: Db, s: Session, today: Day, form: EntryForm)
    requires s.Entering? && SessionOk(cfg, db, s)
    ensures EntryCommitted(cfg, db, s, today, form) ==
            if BaseCurrent(db.intakes, s.key, s.base) then Save(cfg, db, s.key, today, form) else db
  {
  }

  /**
    A verification that commits posts the lines of the version it read: they are the lines in the
    table at that moment, so working from the session's copy is the same as working from the table.
   */
  lemma VerificationUsesCurrentLines(cfg: Config, db: Db, s: Session, today: Day, form: VerifyForm)
    requires s.LinesRead? && SessionOk(cfg, db, s)
    ensures VersionsCurrent(db, s) ==>
              s.lines == db.intakes[s.key].lines && s.items == db.donations[s.key.donation].items && Awaiting(db, s.key)
    ensures VerificationCommitted(cfg, db, s, today, form) ==
            if VersionsCurrent(db, s) then VerifyIntake(cfg, db, s.key, today, form) else db
  {
  }

  lemma SubmitEntryRefines(cfg: Config, w: World, step: Step)
    requires SessionsOk(cfg, w) && step.SubmitEntry?
    ensures StepDb(cfg, w, step) == Run(cfg, w.db, ActionOf(w, step))
  {
    if step.sid in w.sessions && w.sessions[step.sid].Entering? {
      var s := w.sessions[step.sid];
      EntryIsSave(cfg, w.db, s, step.today, step.entry);
      RunOne(cfg, w.db, SaveIntake(s.key, step.today, step.entry));
    }
  }

  lemma SubmitVerificationDb(cfg: Config, w: World, step: Step, s: Session)
    requires SessionsOk(cfg, w) && step.SubmitVerification?
    requires step.sid in w.sessions && w.sessions[step.sid] == s && s.LinesRead?
    ensures StepDb(cfg, w, step) ==
            if VersionsCurrent(w.db, s) then VerifyIntake(cfg, w.db, s.key, step.today, step.verify) else w.db
  {
    VerificationUsesCurrentLines(cfg, w.db, s, step.today, step.verify);
  }

  lemma SubmitVerificationRefines(cfg: Config, w: World, step: Step)
    requires SessionsOk(cfg, w) && step.SubmitVerification?
    ensures StepDb(cfg, w, step) == Run(cfg, w.db, ActionOf(w, step))
  {
    if step.sid !in w.sessions || !w.sessions[step.sid].LinesRead? {
      return;
    }
    var s := w.sessions[step.sid];
    SubmitVerificationDb(cfg, w, step, s);
    if !VersionsCurrent(w.db, s) {
      return;
    }
    RunPost(cfg, w.db, s.key, step.today, step.verify);
  }

  lemma RunPost(cfg: Config, db: Db, key: IntakeKey, today: Day, form: VerifyForm)
    ensures Run(cfg, db, [PostIntake(key, today, form)]) == VerifyIntake(cfg, db, key, today, form)
  {
    RunOne(cfg, db, PostIntake(key, today, form));
  }

  lemma HandleRefines(cfg: Config, w: World, step: Step)
    requires step.Handle?
    ensures StepDb(cfg, w, step) == Run(cfg, w.db, ActionOf(w, step))
  {
    RunOne(cfg, w.db, step.action);
  }

  lemma StepRefines(cfg: Config, w: World, step: Step)
    requires SessionsOk(cfg, w)
    ensures StepDb(cfg, w, step) == Run(cfg, w.db, ActionOf(w, step))
  {
    if step.Handle? {
      HandleRefines(cfg, w, step);
    } else if step.SubmitEntry? {
      SubmitEntryRefines(cfg, w, step);
    } else if step.SubmitVerification? {
      SubmitVerificationRefines(cfg, w, step);
    }
  }

  lemma SessionsSurvive(cfg: Config, w: World, step: Step)
    requires Valid(cfg, w.db) && SessionsOk(cfg, w)
    ensures Frozen(w.db, StepDb(cfg, w, step))
    ensures SessionsOk(cfg, World(StepDb(cfg, w, step), w.sessions))
  {
    StepRefines(cfg, w, step);
    RunFreezes(cfg, w.db, ActionOf(w, step));
    var db' := StepDb(cfg, w, step);
    forall sid | sid in w.sessions ensures SessionOk(cfg, db', w.sessions[sid]) {
      SessionSurvives(cfg, w.db, db', w.sessions[sid]);
    }
  }

  lemma OpenVerificationOk(cfg: Config, db: Db, key: IntakeKey)
    requires Valid(cfg, db) && key in db.intakes && db.intakes[key].status == Submitted
    ensures SessionOk(cfg, db, HeaderRead(key, db.intakes[key].version))
  {
    assert IntakeOk(cfg, db.donations, key, db.intakes[key]);
  }

  lemma ReadOk(cfg: Config, w: World, step: Step)
    requires Valid(cfg, w.db) && SessionsOk(cfg, w) && Read(cfg, w.db, w.sessions, step).Some?
    ensures SessionOk(cfg, w.db, Read(cfg, w.db, w.sessions, step).value)
  {
    if step.OpenVerification? {
      OpenVerificationOk(cfg, w.db, step.key);
    } else if !step.OpenEntry? {
      assert SessionOk(cfg, w.db, w.sessions[step.sid]);
    }
  }

  lemma SessionsStayOk(cfg: Config, w: World, step: Step)
    requires Valid(cfg, w.db) && SessionsOk(cfg, w)
    ensures SessionsOk(cfg, NextWorld(cfg, w, step))
  {
    SessionsSurvive(cfg, w, step);
    if Read(cfg, w.db, w.sessions, step).Some? {
      ReadOk(cfg, w, step);
    }
    SessionsReplaced(cfg, w, step);
  }

  lemma SessionsReplaced(cfg: Config, w: World, step: Step)
    requires SessionsOk(cfg, World(StepDb(cfg, w, step), w.sessions))
    requires Read(cfg, w.db, w.sessions, step).Some? ==>
               SessionOk(cfg, w.db, Read(cfg, w.db, w.sessions, step).value)
    ensures SessionsOk(cfg, NextWorld(cfg, w, step))
  {
    var w' := NextWorld(cfg, w, step);
    forall sid | sid in w'.sessions ensures SessionOk(cfg, w'.db, w'.sessions[sid]) {
      assert (sid in w.sessions && w'.sessions[sid] == w.sessions[sid]) ||
             (w'.db == w.db && Read(cfg, w.db, w.sessions, step) == Some(w'.sessions[sid]));
    }
  }

  /**
    However sessions interleave, the tables end up as if the successful commits had been sequential
    handler calls, in commit order: stale commits leave no mark, and no commit acts on stale data.
   */
  lemma {:induction false} InterleavingIsSequential(cfg: Config, w: World, steps: seq<Step>)
    requires Valid(cfg, w.db) && SessionsOk(cfg, w)
    ensures RunWorld(cfg, w, steps).db == Run(cfg, w.db, Trace(cfg, w, steps))
    ensures SessionsOk(cfg, RunWorld(cfg, w, steps))
  {
    if steps != [] {
      var n := |steps| - 1;
      var before := RunWorld(cfg, w, steps[..n]);
      InterleavingIsSequential(cfg, w, steps[..n]);
      RunKeepsValid(cfg, w.db, Trace(cfg, w, steps[..n]));
      StepRefines(cfg, before, steps[n]);
      SessionsStayOk(cfg, before, steps[n]);
      RunConcat(cfg, w.db, Trace(cfg, w, steps[..n]), ActionOf(before, steps[n]));
    }
  }

  /**
    Under every interleaving of verifiers, re-entering editors and donation handlers: the state is
    consistent (so each intake is posted at most once, with the lines of the version it was read at),
    stock rows gain exactly what the newly verified intakes' donations account for, and both stock
    tables are the replayed journal.
   */
  lemma ConcurrentPostingSafe(cfg: Config, db: Db, steps: seq<Step>)
    requires Valid(cfg, db)
    ensures var db' := RunWorld(cfg, World(db, map[]), steps).db;
      && Valid(cfg, db')
      && Frozen(db, db')
      && (forall s :: GainAccounted(cfg, db, db', s))
      && Replayed(db, db')
  {
    var w := World(db, map[]);
    var actions := Trace(cfg, w, steps);
    InterleavingIsSequential(cfg, w, steps);
    RunKeepsValid(cfg, db, actions);
    RunFreezes(cfg, db, actions);
    RunReplays(cfg, db, actions);
    forall s ensures GainAccounted(cfg, db, Run(cfg, db, actions), s) {
      RunConserves(cfg, db, actions, s);
    }
  }
}

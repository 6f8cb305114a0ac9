/**
  Agency account requests: a status machine with an append-only audit log. Administrators read a
  request, decide on what they read, and commit only if the request still has the version they read.
  Submitters look for an active request with their email and insert later, under a unique index.
 */
module AccountRequests {
  import opened Common

  datatype Status = Submitted | InReview | Approved | Denied

  datatype Event = SubmittedEvent | MovedToReview | ApprovedEvent | DeniedEvent

  datatype Request = Request(email: string, status: Status, reason: Option<string>, version: nat)

  datatype AuditRow = AuditRow(request: nat, event: Event, notes: string, actor: nat)

  datatype Db = Db(requests: map<nat, Request>, audit: seq<AuditRow>)

  /** A submission; every text field arrives trimmed. */
  datatype Form = Form(agency: string, contact: string, phone: string, email: string, reason: string)

  datatype Decision = StartReview | Approve(notes: string) | Deny(reason: string)

  predicate Active(r: Request)
  {
    r.status == Submitted || r.status == InReview
  }

  predicate EmailBusy(requests: map<nat, Request>, email: string)
  {
    exists id :: id in requests && requests[id].email == email && Active(requests[id])
  }

  predicate FieldsGiven(form: Form)
  {
    form.agency != "" && form.contact != "" && form.phone != "" && form.email != "" && form.reason != ""
  }

  predicate CanCreate(db: Db, id: nat, form: Form)
  {
    id !in db.requests && FieldsGiven(form) && !EmailBusy(db.requests, form.email)
  }

  /** The new request and its first audit row. */
  function Inserted(db: Db, id: nat, form: Form, actor: nat): Db
  {
    Db(db.requests[id := Request(form.email, Submitted, None, 1)],
       db.audit + [AuditRow(id, SubmittedEvent, "Request submitted", actor)])
  }

  /** A submission that runs without interference. */
  function Create(db: Db, id: nat, form: Form, actor: nat): Db
  {
    if CanCreate(db, id, form) then Inserted(db, id, form, actor) else db
  }

  /** The guard of each handler, on the status it reads. */
  predicate Allowed(d: Decision, s: Status)
  {
    match d
    case StartReview => s == Submitted
    case Approve(_) => s == Submitted || s == InReview
    case Deny(reason) => reason != "" && (s == Submitted || s == InReview)
  }

  function Decided(r: Request, d: Decision): Request
  {
    match d
    case StartReview => r.(status := InReview, version := r.version + 1)
    case Approve(notes) => r.(status := Approved, reason := Some(notes), version := r.version + 1)
    case Deny(reason) => r.(status := Denied, reason := Some(reason), version := r.version + 1)
  }

  function Audited(id: nat, d: Decision, actor: nat): AuditRow
  {
    match d
    case StartReview => AuditRow(id, MovedToReview, "Request moved to review", actor)
    case Approve(notes) => AuditRow(id, ApprovedEvent, if notes == "" then "Request approved" else notes, actor)
    case Deny(reason) => AuditRow(id, DeniedEvent, reason, actor)
  }

  /** The commit: one status change and one audit row, together. */
  function Record(db: Db, id: nat, d: Decision, actor: nat): Db
    requires id in db.requests
  {
    Db(db.requests[id := Decided(db.requests[id], d)], db.audit + [Audited(id, d, actor)])
  }

  predicate CanDecide(db: Db, id: nat, d: Decision)
  {
    id in db.requests && Allowed(d, db.requests[id].status)
  }

  /** A handler that runs without interference. */
  function Decide(db: Db, id: nat, d: Decision, actor: nat): Db
  {
    if CanDecide(db, id, d) then Record(db, id, d, actor) else db
  }

  // ----- Interleaved submitters and administrators -----

  /**
    What a browser request holds between reading and committing: a decision with the version it was
    made on, or a submission whose email was not busy when it was looked up.
   */
  datatype Session =
    | Deciding(id: nat, decision: Decision, actor: nat, version: nat)
    | Submitting(form: Form, submitter: nat)

  datatype World = World(db: Db, sessions: map<nat, Session>)

  datatype Step =
    | OpenSubmission(sid: nat, form: Form, submitter: nat)
    | SaveSubmission(sid: nat, newId: nat)
    | Read(sid: nat, id: nat, decision: Decision, actor: nat)
    | Commit(sid: nat)

  function Committed(db: Db, s: Session): Db
    requires s.Deciding?
  {
    if s.id in db.requests && db.requests[s.id].version == s.version then Record(db, s.id, s.decision, s.actor) else db
  }

  /** The insert does not look at other requests again; the unique index on active emails refuses it if it must. */
  function Saved(db: Db, s: Session, id: nat): Db
    requires s.Submitting?
  {
    if id in db.requests || EmailBusy(db.requests, s.form.email) then db else Inserted(db, id, s.form, s.submitter)
  }

  function Next(w: World, step: Step): World
  {
    match step
    case OpenSubmission(sid, form, actor) =>
      if FieldsGiven(form) && !EmailBusy(w.db.requests, form.email)
      then World(w.db, w.sessions[sid := Submitting(form, actor)])
      else w
    case SaveSubmission(sid, id) =>
      if sid in w.sessions && w.sessions[sid].Submitting?
      then World(Saved(w.db, w.sessions[sid], id), w.sessions - {sid})
      else w
    case Read(sid, id, d, actor) =>
      if CanDecide(w.db, id, d)
      then World(w.db, w.sessions[sid := Deciding(id, d, actor, w.db.requests[id].version)])
      else w
    case Commit(sid) =>
      if sid in w.sessions && w.sessions[sid].Deciding?
      then World(Committed(w.db, w.sessions[sid]), w.sessions - {sid})
      else w
  }

  function Run(w: World, steps: seq<Step>): World
  {
    if steps == [] then w else Next(Run(w, steps[..|steps| - 1]), steps[|steps| - 1])
  }

  // ----- The audit log -----

  /** The audit events of one request, oldest first. */
  function Log(audit: seq<AuditRow>, id: nat): seq<Event>
  {
    if audit == [] then []
    else
      var n := |audit| - 1;
      Log(audit[..n], id) + if audit[n].request == id then [audit[n].event] else []
  }

  /** Submitted, then possibly moved to review, then at most one of approved and denied. */
  predicate LegalLog(log: seq<Event>)
  {
    && 1 <= |log| <= 3
    && log[0] == SubmittedEvent
    && (|log| == 2 ==> log[1] != SubmittedEvent)
    && (|log| == 3 ==> log[1] == MovedToReview && (log[2] == ApprovedEvent || log[2] == DeniedEvent))
  }

  /** The status a reader of the log would conclude. */
  function Replay(log: seq<Event>): Option<Status>
  {
    if log == [] then None
    else
      match log[|log| - 1]
      case SubmittedEvent => Some(Submitted)
      case MovedToReview => Some(InReview)
      case ApprovedEvent => Some(Approved)
      case DeniedEvent => Some(Denied)
  }

  ghost predicate LogOk(db: Db, id: nat)
  {
    var log := Log(db.audit, id);
    if id in db.requests
    then LegalLog(log) && Replay(log) == Some(db.requests[id].status) && |log| == db.requests[id].version
    else log == []
  }

  ghost predicate ActiveEmailsDistinct(requests: map<nat, Request>)
  {
    forall a, b :: a in requests && b in requests && a != b && Active(requests[a]) && Active(requests[b]) ==>
      requests[a].email != requests[b].email
  }

  /** A session's decision is still allowed if the version it read is still the current one. */
  ghost predicate SessionOk(db: Db, s: Session)
  {
    match s
    case Deciding(id, decision, _, version) =>
      && id in db.requests
      && version <= db.requests[id].version
      && (version == db.requests[id].version ==> Allowed(decision, db.requests[id].status))
    case Submitting(form, _) => FieldsGiven(form)
  }

  ghost predicate Valid(w: World)
  {
    && (forall id :: LogOk(w.db, id))
    && ActiveEmailsDistinct(w.db.requests)
    && (forall sid :: sid in w.sessions ==> SessionOk(w.db, w.sessions[sid]))
  }

  lemma LogAppend(audit: seq<AuditRow>, row: AuditRow, id: nat)
    ensures Log(audit + [row], id) == Log(audit, id) + if row.request == id then [row.event] else []
  {
    assert (audit + [row])[..|audit|] == audit;
  }

  /** An allowed decision extends the log of its request by one legal event, and no other log. */
  lemma RecordKeepsLogs(db: Db, id: nat, d: Decision, actor: nat)
    requires CanDecide(db, id, d) && forall i :: LogOk(db, i)
    ensures forall i :: LogOk(Record(db, id, d, actor), i)
  {
    forall i ensures LogOk(Record(db, id, d, actor), i) {
      LogAppend(db.audit, Audited(id, d, actor), i);
      assert LogOk(db, i);
    }
  }

  lemma CreateKeepsLogs(db: Db, id: nat, form: Form, actor: nat)
    requires forall i :: LogOk(db, i)
    ensures forall i :: LogOk(Create(db, id, form, actor), i)
  {
    if CanCreate(db, id, form) {
      forall i ensures LogOk(Create(db, id, form, actor), i) {
        LogAppend(db.audit, AuditRow(id, SubmittedEvent, "Request submitted", actor), i);
        assert LogOk(db, i);
      }
    }
  }

  /** A commit at the version that was read is the handler run without interference; any other changes nothing. */
  lemma CommitIsDecide(db: Db, s: Session)
    requires SessionOk(db, s) && s.Deciding?
    ensures Committed(db, s) ==
            if db.requests[s.id].version == s.version then Decide(db, s.id, s.decision, s.actor) else db
  {
  }

  /** The index makes a late insert do what an undisturbed submission would do. */
  lemma SavedIsCreate(db: Db, s: Session, id: nat)
    requires SessionOk(db, s) && s.Submitting?
    ensures Saved(db, s, id) == Create(db, id, s.form, s.submitter)
  {
  }

  /** A request never disappears, keeps its email, and changes only together with its version. */
  ghost predicate Evolves(before: map<nat, Request>, after: map<nat, Request>)
  {
    forall id :: id in before ==>
      && id in after
      && after[id].email == before[id].email
      && (after[id] == before[id] || (before[id].version < after[id].version && Active(before[id])))
  }

  lemma SessionSurvives(db: Db, db': Db, s: Session)
    requires SessionOk(db, s) && Evolves(db.requests, db'.requests)
    ensures SessionOk(db', s)
  {
  }

  lemma EmailsStayDistinct(requests: map<nat, Request>, id: nat, r: Request)
    requires ActiveEmailsDistinct(requests)
    requires id in requests ==> Active(requests[id]) && requests[id].email == r.email
    requires id !in requests ==> !EmailBusy(requests, r.email)
    ensures ActiveEmailsDistinct(requests[id := r])
  {
  }

  lemma NextEvolves(w: World, step: Step)
    requires Valid(w)
    ensures Evolves(w.db.requests, Next(w, step).db.requests)
  {
    if step.Commit? && step.sid in w.sessions && w.sessions[step.sid].Deciding? {
      CommitIsDecide(w.db, w.sessions[step.sid]);
    }
  }

  lemma EmailsStayDistinctOnCreate(db: Db, id: nat, form: Form, actor: nat)
    requires ActiveEmailsDistinct(db.requests)
    ensures ActiveEmailsDistinct(Create(db, id, form, actor).requests)
  {
    if CanCreate(db, id, form) {
      EmailsStayDistinct(db.requests, id, Request(form.email, Submitted, None, 1));
    }
  }

  /** What the two tables always satisfy. */
  ghost predicate Consistent(db: Db)
  {
    (forall id :: LogOk(db, id)) && ActiveEmailsDistinct(db.requests)
  }

  lemma CreateConsistent(db: Db, id: nat, form: Form, actor: nat)
    requires Consistent(db)
    ensures Consistent(Create(db, id, form, actor))
  {
    CreateKeepsLogs(db, id, form, actor);
    EmailsStayDistinctOnCreate(db, id, form, actor);
  }

  lemma DecideConsistent(db: Db, id: nat, d: Decision, actor: nat)
    requires Consistent(db)
    ensures Consistent(Decide(db, id, d, actor))
  {
    if CanDecide(db, id, d) {
      RecordKeepsLogs(db, id, d, actor);
      EmailsStayDistinct(db.requests, id, Decided(db.requests[id], d));
    }
  }

  lemma NextKeepsTables(w: World, step: Step)
    requires Valid(w)
    ensures Consistent(Next(w, step).db)
  {
    match step
    case OpenSubmission(_, _, _) =>
    case SaveSubmission(sid, id) =>
      if sid in w.sessions && w.sessions[sid].Submitting? {
        var s := w.sessions[sid];
        SavedIsCreate(w.db, s, id);
        CreateConsistent(w.db, id, s.form, s.submitter);
      }
    case Read(_, _, _, _) =>
    case Commit(sid) =>
      if sid in w.sessions && w.sessions[sid].Deciding? {
        var s := w.sessions[sid];
        CommitIsDecide(w.db, s);
        DecideConsistent(w.db, s.id, s.decision, s.actor);
      }
  }

  lemma NextKeepsValid(w: World, step: Step)
    requires Valid(w)
    ensures Valid(Next(w, step))
  {
    var w' := Next(w, step);
    NextKeepsTables(w, step);
    NextEvolves(w, step);
    forall sid | sid in w'.sessions ensures SessionOk(w'.db, w'.sessions[sid]) {
      if sid in w.sessions && w.sessions[sid] == w'.sessions[sid] {
        SessionSurvives(w.db, w'.db, w.sessions[sid]);
      }
    }
  }

  lemma {:induction false} RunKeepsValid(w: World, steps: seq<Step>)
    requires Valid(w)
    ensures Valid(Run(w, steps))
  {
    if steps != [] {
      RunKeepsValid(w, steps[..|steps| - 1]);
      NextKeepsValid(Run(w, steps[..|steps| - 1]), steps[|steps| - 1]);
    }
  }

  /** An empty register with nobody at work is where it starts. */
  const EMPTY := World(Db(map[], []), map[])

  /**
    Under every interleaving, the committed audit events of each request are submitted, then possibly
    moved to review, then at most one decision; replaying them gives the request's status, and there
    are exactly as many as the request's version says. Active requests have distinct email addresses.
   */
  lemma AuditReplaysToStatus(steps: seq<Step>, id: nat)
    ensures var db := Run(EMPTY, steps).db;
      var log := Log(db.audit, id);
      && (id in db.requests <==> log != [])
      && (id in db.requests ==>
            LegalLog(log) && Replay(log) == Some(db.requests[id].status) && |log| == db.requests[id].version)
      && ActiveEmailsDistinct(db.requests)
  {
    var w := Run(EMPTY, steps);
    EmptyIsValid();
    RunKeepsValid(EMPTY, steps);
    assert LogOk(w.db, id);
  }

  lemma EmptyIsValid()
    ensures Valid(EMPTY)
  {
  }

  /**
    Of two submitters with one email who both found no active request, the second to save is refused;
    without the index it would not be.
   */
  lemma SecondSubmissionRefused(db: Db, a: Session, b: Session, id1: nat, id2: nat)
    requires a.Submitting? && b.Submitting? && a.form.email == b.form.email && !EmailBusy(db.requests, a.form.email)
    requires id1 !in db.requests && id2 !in db.requests && id1 != id2
    ensures var first := Saved(db, a, id1);
      && first == Inserted(db, id1, a.form, a.submitter)
      && Saved(first, b, id2) == first
      && !ActiveEmailsDistinct(Inserted(first, id2, b.form, b.submitter).requests)
  {
    var requests := Inserted(Saved(db, a, id1), id2, b.form, b.submitter).requests;
    assert Active(requests[id1]) && Active(requests[id2]);
  }

  /** Approved and denied are terminal: the row never changes again and its log gets no further event. */
  lemma {:induction false} DecisionsAreFinal(w: World, steps: seq<Step>, id: nat)
    requires Valid(w) && id in w.db.requests && !Active(w.db.requests[id])
    ensures var db' := Run(w, steps).db;
      && id in db'.requests && db'.requests[id] == w.db.requests[id]
      && Log(db'.audit, id) == Log(w.db.audit, id)
  {
    if steps != [] {
      var n := |steps| - 1;
      var before := Run(w, steps[..n]);
      DecisionsAreFinal(w, steps[..n], id);
      RunKeepsValid(w, steps[..n]);
      FinalStep(before, steps[n], id);
    }
  }

  lemma FinalStep(w: World, step: Step, id: nat)
    requires Valid(w) && id in w.db.requests && !Active(w.db.requests[id])
    ensures var db' := Next(w, step).db;
      id in db'.requests && db'.requests[id] == w.db.requests[id] && Log(db'.audit, id) == Log(w.db.audit, id)
  {
    if step.SaveSubmission? && step.sid in w.sessions && w.sessions[step.sid].Submitting? {
      var s := w.sessions[step.sid];
      LogAppend(w.db.audit, AuditRow(step.newId, SubmittedEvent, "Request submitted", s.submitter), id);
    } else if step.Commit? && step.sid in w.sessions && w.sessions[step.sid].Deciding? {
      FinalCommit(w.db, w.sessions[step.sid], id);
    }
  }

  lemma FinalCommit(db: Db, s: Session, id: nat)
    requires SessionOk(db, s) && s.Deciding? && id in db.requests && !Active(db.requests[id])
    ensures var db' := Committed(db, s);
      id in db'.requests && db'.requests[id] == db.requests[id] && Log(db'.audit, id) == Log(db.audit, id)
  {
    LogAppend(db.audit, Audited(s.id, s.decision, s.actor), id);
  }
}

/** The request desk as it runs: two tables and the handlers that assign them. */
module RequestDesk {
  import opened Common
  import opened AccountRequests
  import opened AccountOutcomes

  class Desk {
    var requests: map<nat, Request>
    var audit: seq<AuditRow>

    function Contents(): Db
      reads this
    {
      Db(requests, audit)
    }

    /** Every request's log is legal and replays to its status, and active emails are distinct. */
    ghost predicate Valid()
      reads this
    {
      Consistent(Contents())
    }

    constructor ()
      ensures Valid() && Contents() == Db(map[], [])
    {
      requests, audit := map[], [];
    }

    method CreateRequest(id: nat, form: Form, actor: nat) returns (created: bool)
      requires Valid()
      modifies this
      ensures Valid()
      ensures Contents() == Create(old(Contents()), id, form, actor)
      ensures created <==> CanCreate(old(Contents()), id, form)
    {
      CreateConsistent(Contents(), id, form, actor);
      if form.agency == "" || form.contact == "" || form.phone == "" || form.email == "" || form.reason == "" {
        return false;
      }
      if id in requests || EmailBusy(requests, form.email) {
        return false;
      }
      requests := requests[id := Request(form.email, Submitted, None, 1)];
      audit := audit + [AuditRow(id, SubmittedEvent, "Request submitted", actor)];
      return true;
    }

    method StartReviewOf(id: nat, actor: nat) returns (moved: bool)
      requires Valid()
      modifies this
      ensures Valid()
      ensures Contents() == Decide(old(Contents()), id, StartReview, actor)
      ensures moved <==> CanDecide(old(Contents()), id, StartReview)
      ensures moved ==> DecidedAs(old(Contents()), Contents(), id, StartReview, actor)
    {
      DecideConsistent(Contents(), id, StartReview, actor);
      DecisionOutcome(Contents(), id, StartReview, actor);
      if id !in requests || requests[id].status != Submitted {
        return false;
      }
      requests := requests[id := requests[id].(status := InReview, version := requests[id].version + 1)];
      audit := audit + [AuditRow(id, MovedToReview, "Request moved to review", actor)];
      return true;
    }

    method ApproveRequest(id: nat, notes: string, actor: nat) returns (approved: bool)
      requires Valid()
      modifies this
      ensures Valid()
      ensures Contents() == Decide(old(Contents()), id, Approve(notes), actor)
      ensures approved <==> CanDecide(old(Contents()), id, Approve(notes))
      ensures approved ==> DecidedAs(old(Contents()), Contents(), id, Approve(notes), actor)
    {
      DecideConsistent(Contents(), id, Approve(notes), actor);
      DecisionOutcome(Contents(), id, Approve(notes), actor);
      if id !in requests || (requests[id].status != Submitted && requests[id].status != InReview) {
        return false;
      }
      var r := requests[id];
      requests := requests[id := r.(status := Approved, reason := Some(notes), version := r.version + 1)];
      audit := audit + [AuditRow(id, ApprovedEvent, if notes != "" then notes else "Request approved", actor)];
      return true;
    }

    method DenyRequest(id: nat, reason: string, actor: nat) returns (denied: bool)
      requires Valid()
      modifies this
      ensures Valid()
      ensures Contents() == Decide(old(Contents()), id, Deny(reason), actor)
      ensures denied <==> CanDecide(old(Contents()), id, Deny(reason))
      ensures denied ==> DecidedAs(old(Contents()), Contents(), id, Deny(reason), actor)
    {
      DecideConsistent(Contents(), id, Deny(reason), actor);
      DecisionOutcome(Contents(), id, Deny(reason), actor);
      if id !in requests || reason == "" || (requests[id].status != Submitted && requests[id].status != InReview) {
        return false;
      }
      var r := requests[id];
      requests := requests[id := r.(status := Denied, reason := Some(reason), version := r.version + 1)];
      audit := audit + [AuditRow(id, DeniedEvent, reason, actor)];
      return true;
    }
  }
}

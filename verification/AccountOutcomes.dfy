/**
  What becomes of account requests: the outcome of each decision and of each submission, and which
  decisions the status of a request goes back to when administrators interleave.
 */
module AccountOutcomes {
  import opened Common
  import opened AccountRequests

  // ----- One decision -----

  /** Which requests a decision is open for. */
  predicate OpenFor(d: Decision, r: Request)
  {
    && (r.status == Submitted || (r.status == InReview && !d.StartReview?))
    && (d.Deny? ==> d.reason != "")
  }

  predicate StatusOf(d: Decision, status: Status)
  {
    && (d.StartReview? ==> status == InReview)
    && (d.Approve? ==> status == Approved)
    && (d.Deny? ==> status == Denied)
  }

  predicate EventOf(d: Decision, event: Event)
  {
    && (d.StartReview? ==> event == MovedToReview)
    && (d.Approve? ==> event == ApprovedEvent)
    && (d.Deny? ==> event == DeniedEvent)
  }

  /** The given text is stored with an approval or denial; moving to review stores none. */
  predicate ReasonOf(d: Decision, before: Option<string>, after: Option<string>)
  {
    match d
    case StartReview => after == before
    case Approve(notes) => after == Some(notes)
    case Deny(reason) => after == Some(reason)
  }

  /** And noted in the audit row, which never stays without a note. */
  predicate NoteOf(d: Decision, note: string)
  {
    match d
    case StartReview => note == "Request moved to review"
    case Approve(notes) => note == if notes != "" then notes else "Request approved"
    case Deny(reason) => note == reason
  }

  /** One request decided as asked, with one audit row by the administrator who asked, and nothing else. */
  predicate DecidedAs(before: Db, after: Db, id: nat, d: Decision, actor: nat)
  {
    && id in before.requests && id in after.requests
    && var r, r' := before.requests[id], after.requests[id];
    && StatusOf(d, r'.status) && ReasonOf(d, r.reason, r'.reason)
    && r'.email == r.email && r'.version == r.version + 1
    && after.requests == before.requests[id := r']
    && |after.audit| == |before.audit| + 1 && before.audit <= after.audit
    && var row := after.audit[|before.audit|];
    && row.request == id && row.actor == actor && EventOf(d, row.event) && NoteOf(d, row.notes)
  }

  /** An open decision is carried out as asked, and any other changes nothing. */
  lemma DecisionOutcome(db: Db, id: nat, d: Decision, actor: nat)
    ensures CanDecide(db, id, d) <==> id in db.requests && OpenFor(d, db.requests[id])
    ensures if id in db.requests
      && OpenFor(d, db.requests[id]) then DecidedAs(db, Decide(db, id, d, actor), id, d, actor)
            else Decide(db, id, d, actor) == db
  {
  }

  /** So the log of the request grows by the event of the decision. */
  lemma LogOutcome(before: Db, after: Db, id: nat, d: Decision, actor: nat)
    requires DecidedAs(before, after, id, d, actor)
    ensures Log(after.audit, id) == Log(before.audit, id) + [after.audit[|before.audit|].event]
    ensures EventOf(d, after.audit[|before.audit|].event)
    ensures forall i :: i != id ==> Log(after.audit, i) == Log(before.audit, i)
  {
    var row := after.audit[|before.audit|];
    assert after.audit == before.audit + [row];
    LogAppend(before.audit, row, id);
    forall i | i != id ensures Log(after.audit, i) == Log(before.audit, i) {
      LogAppend(before.audit, row, i);
    }
  }

  /** A complete form whose email has no active request becomes a submitted request with its first audit row. */
  lemma SubmissionOutcome(db: Db, id: nat, form: Form, actor: nat)
    ensures var db' := Create(db, id, form, actor);
      var accepted :=
        && id !in db.requests
        && "" !in {form.agency, form.contact, form.phone, form.email, form.reason}
        && forall k :: k in db.requests && db.requests[k].email == form.email ==>
            db.requests[k].status in {Approved, Denied};
      if accepted then
        && id in db'.requests && db'.requests == db.requests[id := db'.requests[id]]
        && db'.requests[id].email == form.email && db'.requests[id].status == Submitted
        && db'.requests[id].reason == None && db'.requests[id].version == 1
        && |db'.audit| == |db.audit| + 1 && db.audit <= db'.audit
        && db'.audit[|db.audit|].request == id && db'.audit[|db.audit|].event == SubmittedEvent
        && db'.audit[|db.audit|].actor == actor
      else db' == db
  {
  }

  // ----- Interleaved decisions -----

  /** The decision that a step commits for a request, if any. */
  function CommittedBy(w: World, step: Step, id: nat): seq<Decision>
  {
    if step.Commit? && step.sid in w.sessions && w.sessions[step.sid].Deciding? && w.sessions[step.sid].id == id
       && id in w.db.requests && w.db.requests[id].version == w.sessions[step.sid].version
    then [w.sessions[step.sid].decision] else []
  }

  /** All decisions that a run commits for a request, in order. */
  function CommittedDecisions(w: World, steps: seq<Step>, id: nat): seq<Decision>
  {
    if steps == [] then []
    else
      var n := |steps| - 1;
      CommittedDecisions(w, steps[..n], id) + CommittedBy(Run(w, steps[..n]), steps[n], id)
  }

  /** The log after its first entry is, event by event, what was decided. */
  ghost predicate LogShows(log: seq<Event>, decisions: seq<Decision>)
  {
    if log == [] then decisions == []
    else |log| == |decisions| + 1 && forall i :: 0 <= i < |decisions| ==> EventOf(decisions[i], log[i + 1])
  }

  lemma LogShowsNext(log: seq<Event>, decisions: seq<Decision>, d: Decision, event: Event)
    requires log != [] && LogShows(log, decisions) && EventOf(d, event)
    ensures LogShows(log + [event], decisions + [d])
  {
  }

  lemma CommitShows(w: World, sid: nat, id: nat, decisions: seq<Decision>)
    requires AccountRequests.Valid(w) && LogShows(Log(w.db.audit, id), decisions)
    ensures LogShows(Log(Next(w, Commit(sid)).db.audit, id), decisions + CommittedBy(w, Commit(sid), id))
  {
    assert decisions + [] == decisions;
    if sid in w.sessions && w.sessions[sid].Deciding? {
      var s := w.sessions[sid];
      var after := Next(w, Commit(sid)).db;
      CommitIsDecide(w.db, s);
      if w.db.requests[s.id].version == s.version {
        DecisionOutcome(w.db, s.id, s.decision, s.actor);
        LogOutcome(w.db, after, s.id, s.decision, s.actor);
        assert LogOk(w.db, s.id);
        if s.id == id {
          LogShowsNext(Log(w.db.audit, id), decisions, s.decision, after.audit[|w.db.audit|].event);
        }
      }
    }
  }

  lemma SaveShows(w: World, sid: nat, newId: nat, id: nat, decisions: seq<Decision>)
    requires AccountRequests.Valid(w) && LogShows(Log(w.db.audit, id), decisions)
    ensures LogShows(Log(Next(w, SaveSubmission(sid, newId)).db.audit, id), decisions)
  {
    if sid in w.sessions && w.sessions[sid].Submitting? {
      var s := w.sessions[sid];
      LogAppend(w.db.audit, AuditRow(newId, SubmittedEvent, "Request submitted", s.submitter), id);
      assert LogOk(w.db, newId);
    }
  }

  /** Under every interleaving the log of a request consists of the decisions committed for it. */
  lemma {:induction false} LogIsDecisions(steps: seq<Step>, id: nat)
    ensures LogShows(Log(Run(EMPTY, steps).db.audit, id), CommittedDecisions(EMPTY, steps, id))
  {
    if steps != [] {
      var n := |steps| - 1;
      var w, decisions := Run(EMPTY, steps[..n]), CommittedDecisions(EMPTY, steps[..n], id);
      LogIsDecisions(steps[..n], id);
      EmptyIsValid();
      RunKeepsValid(EMPTY, steps[..n]);
      assert decisions + [] == decisions;
      match steps[n]
      case Commit(sid) => CommitShows(w, sid, id, decisions);
      case SaveSubmission(sid, newId) => SaveShows(w, sid, newId, id, decisions);
      case _ =>
    }
  }

  lemma LastEventDecides(db: Db, id: nat, decisions: seq<Decision>)
    requires LogOk(db, id) && id in db.requests && LogShows(Log(db.audit, id), decisions)
    ensures db.requests[id].status == Approved <==> exists d :: d in decisions && d.Approve?
    ensures db.requests[id].status == Denied <==> exists d :: d in decisions && d.Deny?
    ensures db.requests[id].status == Submitted <==> decisions == []
  {
    var log := Log(db.audit, id);
    if |decisions| > 0 {
      assert EventOf(decisions[|decisions| - 1], log[|log| - 1]);
      assert decisions[|decisions| - 1] in decisions;
    }
    if |decisions| == 2 {
      assert EventOf(decisions[0], log[1]);
      assert forall d :: d in decisions ==> d == decisions[0] || d == decisions[1];
    }
  }

  /**
    Under every interleaving, a request is approved exactly if a committed session decided to approve it,
    denied exactly if one decided to deny it, and still submitted exactly if none was committed.
   */
  lemma StatusIsDecided(steps: seq<Step>, id: nat)
    requires id in Run(EMPTY, steps).db.requests
    ensures var status, decisions := Run(EMPTY, steps).db.requests[id].status, CommittedDecisions(EMPTY, steps, id);
      && (status == Approved <==> exists d :: d in decisions && d.Approve?)
      && (status == Denied <==> exists d :: d in decisions && d.Deny?)
      && (status == Submitted <==> decisions == [])
  {
    LogIsDecisions(steps, id);
    EmptyIsValid();
    RunKeepsValid(EMPTY, steps);
    assert LogOk(Run(EMPTY, steps).db, id);
    LastEventDecides(Run(EMPTY, steps).db, id, CommittedDecisions(EMPTY, steps, id));
  }

  /** What a session holds is what some administrator asked for. */
  lemma {:induction false} SessionsAsAsked(steps: seq<Step>, sid: nat)
    requires sid in Run(EMPTY, steps).sessions && Run(EMPTY, steps).sessions[sid].Deciding?
    ensures var s := Run(EMPTY, steps).sessions[sid]; Read(sid, s.id, s.decision, s.actor) in steps
  {
    var n := |steps| - 1;
    var before, s := Run(EMPTY, steps[..n]), Run(EMPTY, steps).sessions[sid];
    if sid in before.sessions && before.sessions[sid] == s {
      SessionsAsAsked(steps[..n], sid);
      assert Read(sid, s.id, s.decision, s.actor) in steps[..n];
    } else {
      assert steps[n] == Read(sid, s.id, s.decision, s.actor);
    }
  }

  /** No decision is committed that nobody asked for. */
  lemma {:induction false} DecisionsAsAsked(steps: seq<Step>, id: nat, d: Decision)
    requires d in CommittedDecisions(EMPTY, steps, id)
    ensures exists sid, actor :: Read(sid, id, d, actor) in steps
  {
    var n := |steps| - 1;
    if d in CommittedDecisions(EMPTY, steps[..n], id) {
      DecisionsAsAsked(steps[..n], id, d);
      var sid, actor :| Read(sid, id, d, actor) in steps[..n];
      assert Read(sid, id, d, actor) in steps;
    } else {
      var sid := steps[n].sid;
      SessionsAsAsked(steps[..n], sid);
      var s := Run(EMPTY, steps[..n]).sessions[sid];
      assert Read(sid, id, d, s.actor) in steps[..n];
      assert Read(sid, id, d, s.actor) in steps;
    }
  }
}

/**
  Disaster events: created active, edited under a version check, closed once and for all. An edit is
  two steps, an unlocked read and a commit under a row lock; a close is one step under the lock.
 */
module Events {
  import opened Common

  datatype EventStatus = Active | Closed

  datatype Details = Details(eventType: string, name: string, description: string, impact: string)

  datatype Event = Event(
    details: Details, startDate: int, status: EventStatus, closedDate: Option<int>, reason: Option<string>,
    version: nat)

  /** The submitted form; every text arrives trimmed. */
  datatype Form = Form(
    details: Details, startDate: DateField, status: string, closedDate: DateField, reason: string)

  datatype Field =
    TypeField | StartField | NameField | DescriptionField | ImpactField | StatusField | ClosedField | ReasonField

  const EVENT_TYPES :=
    {"STORM", "HURRICANE", "TORNADO", "FLOOD", "TSUNAMI", "FIRE", "EARTHQUAKE", "WAR", "EPIDEMIC", "ADHOC"}

  function When(c: bool, f: Field): set<Field> { if c then {f} else {} }

  /** The fields in error. Closure fields are only looked at when an event is created. */
  function Invalid(form: Form, today: int, isUpdate: bool): set<Field>
  {
    var d := form.details;
    When(d.eventType !in EVENT_TYPES, TypeField)
    + When(!form.startDate.On? || form.startDate.day > today, StartField)
    + When(d.name == "" || |d.name| > 60, NameField)
    + When(d.description == "" || |d.description| > 255, DescriptionField)
    + When(d.impact == "", ImpactField)
    + if isUpdate then {} else ClosureErrors(form)
  }

  /** A closed event needs a date not before its start and a reason; an active one must have neither. */
  function ClosureErrors(form: Form): set<Field>
  {
    if form.status == "C" then
      When(!form.closedDate.On? || form.startDate.BadDate?
           || (form.startDate.On? && form.closedDate.day < form.startDate.day), ClosedField)
      + When(form.reason == "" || |form.reason| > 255, ReasonField)
    else if form.status == "A" then
      When(!form.closedDate.NoDate?, ClosedField) + When(form.reason != "", ReasonField)
    else {StatusField}
  }

  // ----- Commits -----

  /** What was asked for: the form of a new or edited event, the day and reason of a closure. */
  datatype Kind =
    | Created(form: Form)
    | Edited(submitted: nat, form: Form)
    | ClosedNow(day: int, reason: string)
    | Deleted

  /** A committed change of one row: what it was and what it became, None standing for no row. */
  datatype Commit = Commit(id: nat, kind: Kind, before: Option<Event>, after: Option<Event>)

  datatype Db = Db(events: map<nat, Event>, commits: seq<Commit>)

  function Row(db: Db, id: nat): Option<Event>
  {
    if id in db.events then Some(db.events[id]) else None
  }

  function Put(db: Db, id: nat, kind: Kind, e: Event): Db
  {
    Db(db.events[id := e], db.commits + [Commit(id, kind, Row(db, id), Some(e))])
  }

  function NewEvent(form: Form): Event
    requires form.startDate.On?
  {
    Event(form.details, form.startDate.day, Active, None, None, 1)
  }

  /** Row identifiers come from a sequence and are never used twice. */
  predicate NeverUsed(db: Db, id: nat)
  {
    forall c :: c in db.commits ==> c.id != id
  }

  predicate CanCreate(db: Db, id: nat, form: Form, today: int)
  {
    NeverUsed(db, id) && Invalid(form.(status := "A"), today, false) == {}
  }

  function Create(db: Db, id: nat, form: Form, today: int): Db
  {
    if CanCreate(db, id, form, today) then Put(db, id, Created(form), NewEvent(form)) else db
  }

  function EditedEvent(e: Event, form: Form): Event
    requires form.startDate.On?
  {
    e.(details := form.details, startDate := form.startDate.day, version := e.version + 1)
  }

  /** An empty closing date means today. */
  function ClosingDay(f: DateField, today: int): Option<int>
  {
    match f
    case NoDate => Some(today)
    case BadDate => None
    case On(d) => Some(d)
  }

  predicate CanClose(db: Db, id: nat, date: DateField, reason: string, today: int)
  {
    && id in db.events && db.events[id].status == Active
    && reason != "" && |reason| <= 255
    && ClosingDay(date, today).Some? && db.events[id].startDate <= ClosingDay(date, today).value
  }

  function ClosedEvent(e: Event, day: int, reason: string): Event
  {
    e.(status := Closed, closedDate := Some(day), reason := Some(reason), version := e.version + 1)
  }

  function Close(db: Db, id: nat, date: DateField, reason: string, today: int): Db
  {
    if CanClose(db, id, date, reason, today)
    then
      var day := ClosingDay(date, today).value;
      Put(db, id, ClosedNow(day, reason), ClosedEvent(db.events[id], day, reason))
    else db
  }

  /** A closure is accepted with a reason and a day, by default today, not before the start; it changes nothing else. */
  lemma CloseOutcome(db: Db, id: nat, date: DateField, reason: string, today: int)
    ensures var db', day := Close(db, id, date, reason, today), if date.On? then date.day else today;
      if id in db.events && db.events[id].status == Active && 0 < |reason| <= 255 && !date.BadDate?
         && db.events[id].startDate <= day
      then
        && id in db'.events && db'.events == db.events[id := db'.events[id]]
        && db'.events[id].status == Closed && db'.events[id].closedDate == Some(day)
        && db'.events[id].reason == Some(reason)
        && db'.events[id].details == db.events[id].details && db'.events[id].startDate == db.events[id].startDate
      else db' == db
  {
  }

  // ----- Interleaved handlers -----

  /** Edits and deletions in progress, with the row as the session loaded it. */
  datatype Session =
    | Editing(id: nat, submitted: nat, form: Form, loaded: Event)
    | Deleting(id: nat, loaded: Event)

  datatype World = World(db: Db, sessions: map<nat, Session>)

  datatype Step =
    | CreateEvent(newId: nat, newForm: Form, today: int)
    | CloseEvent(closeId: nat, date: DateField, reason: string, today: int)
    | OpenEdit(sid: nat, id: nat, submitted: nat, form: Form, today: int)
    | SaveEdit(sid: nat, refreshed: bool)
    | OpenDelete(sid: nat, id: nat)
    | ConfirmDelete(sid: nat, referenced: bool)

  /** The checks of the edit handler before it takes the lock. */
  predicate EditGuards(db: Db, id: nat, submitted: nat, form: Form, today: int)
  {
    && id in db.events
    && db.events[id].status == Active
    && submitted == db.events[id].version
    && Invalid(form, today, true) == {}
  }

  /**
    The edit's commit. The locking query may hand back the row as already loaded into the session
    (`refreshed` false) or its present state; either way the update only goes through if the version
    it is based on is the one in the table.
   */
  function Saved(db: Db, s: Session, refreshed: bool): Db
    requires s.Editing?
  {
    if s.id !in db.events || !s.form.startDate.On? then db else
    var seen := if refreshed then db.events[s.id] else s.loaded;
    if s.submitted != seen.version || seen.status == Closed || db.events[s.id].version != seen.version then db
    else Put(db, s.id, Edited(s.submitted, s.form), EditedEvent(db.events[s.id], s.form))
  }

  /** Deletion is versioned too, and refused while other rows refer to the event. */
  function Removed(db: Db, s: Session, referenced: bool): Db
    requires s.Deleting?
  {
    if referenced || s.id !in db.events || db.events[s.id].version != s.loaded.version then db
    else Db(db.events - {s.id}, db.commits + [Commit(s.id, Deleted, Row(db, s.id), None)])
  }

  function StepDb(w: World, step: Step): Db
  {
    match step
    case CreateEvent(id, form, today) => Create(w.db, id, form, today)
    case CloseEvent(id, date, reason, today) => Close(w.db, id, date, reason, today)
    case SaveEdit(sid, refreshed) =>
      if sid in w.sessions && w.sessions[sid].Editing? then Saved(w.db, w.sessions[sid], refreshed) else w.db
    case ConfirmDelete(sid, referenced) =>
      if sid in w.sessions && w.sessions[sid].Deleting? then Removed(w.db, w.sessions[sid], referenced) else w.db
    case _ => w.db
  }

  function StepSessions(w: World, step: Step): map<nat, Session>
  {
    match step
    case OpenEdit(sid, id, submitted, form, today) =>
      if EditGuards(w.db, id, submitted, form, today)
      then w.sessions[sid := Editing(id, submitted, form, w.db.events[id])] else w.sessions
    case OpenDelete(sid, id) =>
      if id in w.db.events then w.sessions[sid := Deleting(id, w.db.events[id])] else w.sessions
    case SaveEdit(sid, _) => w.sessions - {sid}
    case ConfirmDelete(sid, _) => w.sessions - {sid}
    case _ => w.sessions
  }

  function Next(w: World, step: Step): World
  {
    World(StepDb(w, step), StepSessions(w, step))
  }

  function Run(w: World, steps: seq<Step>): World
  {
    if steps == [] then w else Next(Run(w, steps[..|steps| - 1]), steps[|steps| - 1])
  }

  // ----- The lifecycle -----

  predicate DetailsOk(d: Details)
  {
    d.eventType in EVENT_TYPES && 0 < |d.name| <= 60 && 0 < |d.description| <= 255 && d.impact != ""
  }

  /** An update passes exactly with good details and a start date that is not in the future. */
  lemma FormValidIff(form: Form, today: int)
    ensures Invalid(form, today, true) == {} <==>
              DetailsOk(form.details) && form.startDate.On? && form.startDate.day <= today
    ensures Invalid(form.(status := "A"), today, false) == {} <==>
              Invalid(form, today, true) == {} && form.closedDate.NoDate? && form.reason == ""
  {
    UpdateValidIff(form, today);
    var i, j := Invalid(form, today, true), Invalid(form.(status := "A"), today, false);
    assert j == i + When(!form.closedDate.NoDate?, ClosedField) + When(form.reason != "", ReasonField);
    assert ClosedField in j <==> !form.closedDate.NoDate?;
    assert ReasonField in j <==> form.reason != "";
  }

  lemma UpdateValidIff(form: Form, today: int)
    ensures Invalid(form, today, true) == {} <==>
              DetailsOk(form.details) && form.startDate.On? && form.startDate.day <= today
  {
    var i := Invalid(form, today, true);
    assert TypeField in i <==> form.details.eventType !in EVENT_TYPES;
    assert StartField in i <==> !form.startDate.On? || form.startDate.day > today;
    assert NameField in i <==> !(0 < |form.details.name| <= 60);
    assert DescriptionField in i <==> !(0 < |form.details.description| <= 255);
    assert ImpactField in i <==> form.details.impact == "";
  }

  /** Active, no closing date and no reason go together; a closed event was not closed before it started. */
  predicate EventOk(e: Event)
  {
    && (e.status == Active <==> e.closedDate.None?)
    && (e.closedDate.None? <==> e.reason.None?)
    && (e.closedDate.Some? ==> e.startDate <= e.closedDate.value)
    && (e.reason.Some? ==> 0 < |e.reason.value| <= 255)
    && DetailsOk(e.details)
  }

  /** The row an id has after a history of commits. */
  function Latest(commits: seq<Commit>, id: nat): Option<Event>
  {
    if commits == [] then None
    else
      var c := commits[|commits| - 1];
      if c.id == id then c.after else Latest(commits[..|commits| - 1], id)
  }

  /** The editable fields of an event are those of a form. */
  predicate ShowsForm(form: Form, e: Event)
  {
    e.details == form.details && form.startDate == On(e.startDate)
  }

  /** An edit without interference: accepted for an active event at its version, and then the row shows the form. */
  lemma EditOutcome(db: Db, id: nat, submitted: nat, form: Form, today: int)
    ensures EditGuards(db, id, submitted, form, today) <==>
              && id in db.events && db.events[id].status == Active && db.events[id].version == submitted
              && DetailsOk(form.details) && form.startDate.On? && form.startDate.day <= today
    ensures EditGuards(db, id, submitted, form, today) ==>
              var db' := Saved(db, Editing(id, submitted, form, db.events[id]), true);
              && id in db'.events && db'.events == db.events[id := db'.events[id]]
              && ShowsForm(form, db'.events[id]) && db'.events[id].status == Active
              && db'.events[id].version == submitted + 1
  {
    UpdateValidIff(form, today);
  }

  /** What one commit may do to the row it found. */
  predicate Legal(commits: seq<Commit>, c: Commit)
  {
    && c.before == Latest(commits, c.id)
    && match c.kind {
         case Created(form) =>
           && (forall k :: k in commits ==> k.id != c.id)
           && c.after.Some?
           && ShowsForm(form, c.after.value)
           && c.after.value.status == Active && c.after.value.version == 1
         case Edited(submitted, form) =>
           && c.before.Some? && c.after.Some?
           && submitted == c.before.value.version
           && c.before.value.status == Active && c.after.value.status == Active
           && ShowsForm(form, c.after.value)
           && c.after.value.version == submitted + 1
         case ClosedNow(day, reason) =>
           && c.before.Some? && c.after.Some?
           && c.before.value.status == Active && c.after.value.status == Closed
           && c.after.value.closedDate == Some(day) && c.after.value.reason == Some(reason)
           && c.after.value.details == c.before.value.details && c.after.value.startDate == c.before.value.startDate
           && c.after.value.version == c.before.value.version + 1
         case Deleted => c.before.Some? && c.after.None?
       }
  }

  ghost predicate History(commits: seq<Commit>)
  {
    forall n :: 0 <= n < |commits| ==> Legal(commits[..n], commits[n])
  }

  ghost predicate DbOk(db: Db)
  {
    && (forall id :: id in db.events ==> EventOk(db.events[id]))
    && (forall id :: Row(db, id) == Latest(db.commits, id))
    && History(db.commits)
  }

  /** The row a session loaded is outdated, or gone, or exactly the present row. */
  ghost predicate SessionOk(db: Db, s: Session)
  {
    && (s.id in db.events ==>
          s.loaded.version <= db.events[s.id].version &&
          (s.loaded.version == db.events[s.id].version ==> s.loaded == db.events[s.id]))
    && !NeverUsed(db, s.id)
    && (s.Editing? ==> DetailsOk(s.form.details))
  }

  ghost predicate Valid(w: World)
  {
    DbOk(w.db) && forall sid :: sid in w.sessions ==> SessionOk(w.db, w.sessions[sid])
  }

  lemma LatestAppend(commits: seq<Commit>, c: Commit, id: nat)
    ensures Latest(commits + [c], id) == if c.id == id then c.after else Latest(commits, id)
  {
    assert (commits + [c])[..|commits|] == commits;
  }

  lemma HistoryAppend(commits: seq<Commit>, c: Commit)
    requires History(commits) && Legal(commits, c)
    ensures History(commits + [c])
  {
    var after := commits + [c];
    forall n | 0 <= n < |after| ensures Legal(after[..n], after[n]) {
      assert after[..n] == commits[..n];
    }
  }

  /** One legal commit keeps the tables consistent with their history. */
  lemma CommitKeepsDb(db: Db, db': Db, c: Commit)
    requires DbOk(db) && Legal(db.commits, c)
    requires db'.commits == db.commits + [c]
    requires db'.events == if c.after.Some? then db.events[c.id := c.after.value] else db.events - {c.id}
    requires c.after.Some? ==> EventOk(c.after.value)
    ensures DbOk(db')
  {
    HistoryAppend(db.commits, c);
    forall id ensures Row(db', id) == Latest(db'.commits, id) {
      LatestAppend(db.commits, c, id);
      assert Row(db, id) == Latest(db.commits, id);
    }
  }

  /** The row's state at the commit is what the editor was shown, even if the locked read was not refreshed. */
  lemma SavedOnShownVersion(db: Db, s: Session, refreshed: bool)
    requires s.Editing? && SessionOk(db, s) && Saved(db, s, refreshed) != db
    ensures db.events[s.id].version == s.submitted && db.events[s.id].status == Active
  {
  }

  lemma PutKeepsDb(db: Db, id: nat, kind: Kind, e: Event)
    requires DbOk(db) && EventOk(e) && Legal(db.commits, Commit(id, kind, Row(db, id), Some(e)))
    ensures DbOk(Put(db, id, kind, e))
  {
    CommitKeepsDb(db, Put(db, id, kind, e), Commit(id, kind, Row(db, id), Some(e)));
  }

  lemma CreateKeepsDb(db: Db, id: nat, form: Form, today: int)
    requires DbOk(db)
    ensures DbOk(Create(db, id, form, today))
  {
    if CanCreate(db, id, form, today) {
      assert Row(db, id) == Latest(db.commits, id);
      FormValidIff(form, today);
      PutKeepsDb(db, id, Created(form), NewEvent(form));
    }
  }

  lemma CloseKeepsDb(db: Db, id: nat, date: DateField, reason: string, today: int)
    requires DbOk(db)
    ensures DbOk(Close(db, id, date, reason, today))
  {
    if CanClose(db, id, date, reason, today) {
      assert Row(db, id) == Latest(db.commits, id);
      var day := ClosingDay(date, today).value;
      PutKeepsDb(db, id, ClosedNow(day, reason), ClosedEvent(db.events[id], day, reason));
    }
  }

  lemma SaveKeepsDb(db: Db, s: Session, refreshed: bool)
    requires DbOk(db) && s.Editing? && SessionOk(db, s)
    ensures DbOk(Saved(db, s, refreshed))
  {
    if Saved(db, s, refreshed) != db {
      assert Row(db, s.id) == Latest(db.commits, s.id);
      SavedOnShownVersion(db, s, refreshed);
      PutKeepsDb(db, s.id, Edited(s.submitted, s.form), EditedEvent(db.events[s.id], s.form));
    }
  }

  /** An edit that reads and commits without interference. */
  lemma EditKeepsDb(db: Db, id: nat, submitted: nat, form: Form, today: int)
    requires DbOk(db) && EditGuards(db, id, submitted, form, today)
    ensures DbOk(Saved(db, Editing(id, submitted, form, db.events[id]), true))
  {
    PresentUsed(db, id);
    FormValidIff(form, today);
    SaveKeepsDb(db, Editing(id, submitted, form, db.events[id]), true);
  }

  lemma RemoveKeepsDb(db: Db, s: Session, referenced: bool)
    requires DbOk(db) && s.Deleting?
    ensures DbOk(Removed(db, s, referenced))
  {
    var db' := Removed(db, s, referenced);
    if db' != db {
      assert Row(db, s.id) == Latest(db.commits, s.id);
      CommitKeepsDb(db, db', Commit(s.id, Deleted, Row(db, s.id), None));
    }
  }

  lemma SaveStepKeepsDb(w: World, step: Step)
    requires Valid(w) && step.SaveEdit?
    ensures DbOk(StepDb(w, step))
  {
    if step.sid in w.sessions && w.sessions[step.sid].Editing? {
      assert StepDb(w, step) == Saved(w.db, w.sessions[step.sid], step.refreshed);
      SaveKeepsDb(w.db, w.sessions[step.sid], step.refreshed);
    }
  }

  lemma DeleteStepKeepsDb(w: World, step: Step)
    requires Valid(w) && step.ConfirmDelete?
    ensures DbOk(StepDb(w, step))
  {
    if step.sid in w.sessions && w.sessions[step.sid].Deleting? {
      assert StepDb(w, step) == Removed(w.db, w.sessions[step.sid], step.referenced);
      RemoveKeepsDb(w.db, w.sessions[step.sid], step.referenced);
    }
  }

  lemma OtherStepKeepsDb(w: World, step: Step)
    requires DbOk(w.db) && !step.SaveEdit? && !step.ConfirmDelete?
    ensures DbOk(StepDb(w, step))
  {
    if step.CreateEvent? {
      CreateKeepsDb(w.db, step.newId, step.newForm, step.today);
    } else if step.CloseEvent? {
      CloseKeepsDb(w.db, step.closeId, step.date, step.reason, step.today);
    }
  }

  lemma StepKeepsDb(w: World, step: Step)
    requires Valid(w)
    ensures DbOk(StepDb(w, step))
  {
    if step.SaveEdit? {
      SaveStepKeepsDb(w, step);
    } else if step.ConfirmDelete? {
      DeleteStepKeepsDb(w, step);
    } else {
      OtherStepKeepsDb(w, step);
    }
  }

  lemma {:induction false} PresentMeansUsed(commits: seq<Commit>, id: nat)
    requires Latest(commits, id).Some?
    ensures exists c :: c in commits && c.id == id
  {
    if commits != [] {
      var c := commits[|commits| - 1];
      if c.id == id {
        assert c in commits;
      } else {
        PresentMeansUsed(commits[..|commits| - 1], id);
        var k :| k in commits[..|commits| - 1] && k.id == id;
        assert k in commits;
      }
    }
  }

  /** A row that changes gets a higher version. */
  ghost predicate VersionsRise(db: Db, db': Db)
  {
    forall id :: id in db.events && id in db'.events ==>
      db'.events[id] == db.events[id] || db.events[id].version < db'.events[id].version
  }

  /** Identifiers stay used, and a row that is gone does not come back. */
  ghost predicate IdsSpent(db: Db, db': Db)
  {
    forall id :: !NeverUsed(db, id) ==> !NeverUsed(db', id) && (id in db'.events ==> id in db.events)
  }

  lemma PresentUsed(db: Db, id: nat)
    requires DbOk(db) && id in db.events
    ensures !NeverUsed(db, id)
  {
    assert Row(db, id) == Latest(db.commits, id);
    PresentMeansUsed(db.commits, id);
  }

  /** One commit appended, and its row written or removed. */
  predicate Moves(db: Db, db': Db, c: Commit)
  {
    && db'.commits == db.commits + [c]
    && db'.events == (if c.after.Some? then db.events[c.id := c.after.value] else db.events - {c.id})
    && (c.after.Some? ==>
          if c.id in db.events then db.events[c.id].version < c.after.value.version else NeverUsed(db, c.id))
  }

  lemma StepMoves(w: World, step: Step) returns (c: Commit)
    requires Valid(w) && StepDb(w, step) != w.db
    ensures Moves(w.db, StepDb(w, step), c)
  {
    var db' := StepDb(w, step);
    c := db'.commits[|w.db.commits|];
    if step.CreateEvent? && step.newId in w.db.events {
      PresentUsed(w.db, step.newId);
    }
  }

  lemma MoveAdvances(db: Db, db': Db, c: Commit)
    requires Moves(db, db', c)
    ensures VersionsRise(db, db') && IdsSpent(db, db')
  {
    forall id | !NeverUsed(db, id) ensures !NeverUsed(db', id) {
      var k :| k in db.commits && k.id == id;
      assert k in db'.commits;
    }
  }

  lemma StepAdvances(w: World, step: Step)
    requires Valid(w)
    ensures VersionsRise(w.db, StepDb(w, step)) && IdsSpent(w.db, StepDb(w, step))
  {
    if StepDb(w, step) != w.db {
      var c := StepMoves(w, step);
      MoveAdvances(w.db, StepDb(w, step), c);
    }
  }

  lemma SessionSurvives(db: Db, db': Db, s: Session)
    requires SessionOk(db, s) && VersionsRise(db, db') && IdsSpent(db, db')
    ensures SessionOk(db', s)
  {
  }

  lemma SessionsStayOk(w: World, step: Step, sid: nat)
    requires Valid(w) && sid in StepSessions(w, step)
    ensures SessionOk(StepDb(w, step), StepSessions(w, step)[sid])
  {
    var s := StepSessions(w, step)[sid];
    if sid in w.sessions && w.sessions[sid] == s {
      StepAdvances(w, step);
      SessionSurvives(w.db, StepDb(w, step), s);
    } else {
      assert s.id in w.db.events && s.loaded == w.db.events[s.id];
      PresentUsed(w.db, s.id);
      if step.OpenEdit? {
        FormValidIff(step.form, step.today);
      }
    }
  }

  lemma NextKeepsValid(w: World, step: Step)
    requires Valid(w)
    ensures Valid(Next(w, step))
  {
    StepKeepsDb(w, step);
    forall sid | sid in StepSessions(w, step) ensures SessionOk(StepDb(w, step), StepSessions(w, step)[sid]) {
      SessionsStayOk(w, step, sid);
    }
  }

  lemma {:induction false} RunKeepsValid(w: World, steps: seq<Step>)
    requires Valid(w)
    ensures Valid(Run(w, steps))
  {
    if steps != [] {
      RunKeepsValid(w, steps[..|steps| - 1]);
      NextKeepsValid(Run(w, steps[..|steps| - 1]), steps[|steps| - 1]);
    }
  }

  const EMPTY := World(Db(map[], []), map[])

  /**
    Under every interleaving of creations, edits, closures and deletions: an event has good details, is
    active exactly when it has no closing date and exactly when it has no reason, and was not closed
    before it started. Every commit found the row as the latest commit before it had left it, and did
    what was asked: an edit, submitted with the version the row then held, shows its form, a closure its
    day and reason, and neither touches anything else.
   */
  lemma LifecycleHolds(steps: seq<Step>)
    ensures var db := Run(EMPTY, steps).db;
      && (forall id :: id in db.events ==> EventOk(db.events[id]) && Row(db, id) == Latest(db.commits, id))
      && (forall n :: 0 <= n < |db.commits| ==> db.commits[n].before == Latest(db.commits[..n], db.commits[n].id))
      && (forall c :: c in db.commits ==> AsAsked(c))
  {
    EmptyIsValid();
    RunKeepsValid(EMPTY, steps);
    HistoryShows(Run(EMPTY, steps).db);
  }

  lemma EmptyIsValid()
    ensures Valid(EMPTY)
  {
  }

  lemma {:induction false} LatestOfUnused(commits: seq<Commit>, id: nat)
    requires forall c :: c in commits ==> c.id != id
    ensures Latest(commits, id) == None
  {
    if commits != [] {
      assert commits[|commits| - 1] in commits;
      LatestOfUnused(commits[..|commits| - 1], id);
    }
  }

  lemma LegalIsAsAsked(commits: seq<Commit>, c: Commit)
    requires Legal(commits, c)
    ensures AsAsked(c)
  {
    if c.kind.Created? {
      LatestOfUnused(commits, c.id);
    }
  }

  lemma HistoryShows(db: Db)
    requires DbOk(db)
    ensures forall id :: id in db.events ==> EventOk(db.events[id]) && Row(db, id) == Latest(db.commits, id)
    ensures forall n :: 0 <= n < |db.commits| ==> db.commits[n].before == Latest(db.commits[..n], db.commits[n].id)
    ensures forall c :: c in db.commits ==> AsAsked(c)
  {
    forall n | 0 <= n < |db.commits|
      ensures db.commits[n].before == Latest(db.commits[..n], db.commits[n].id) && AsAsked(db.commits[n])
    {
      LegalIsAsAsked(db.commits[..n], db.commits[n]);
    }
  }

  /** A commit carries out what was asked for. */
  predicate AsAsked(c: Commit)
  {
    match c.kind
    case Created(form) =>
      && c.before.None? && c.after.Some?
      && c.after.value.details == form.details && form.startDate == On(c.after.value.startDate)
      && c.after.value.status == Active
    case Edited(submitted, form) =>
      && c.before.Some? && c.after.Some?
      && c.before.value.version == submitted && c.after.value.version == submitted + 1
      && c.before.value.status == Active && c.after.value.status == Active
      && c.after.value.details == form.details && form.startDate == On(c.after.value.startDate)
    case ClosedNow(day, reason) =>
      && c.before.Some? && c.after.Some?
      && c.before.value.status == Active && c.after.value.status == Closed
      && c.after.value.closedDate == Some(day) && c.after.value.reason == Some(reason)
      && c.after.value.details == c.before.value.details && c.after.value.startDate == c.before.value.startDate
    case Deleted => c.before.Some? && c.after.None?
  }

  lemma ClosedStepFinal(w: World, step: Step, id: nat)
    requires Valid(w) && !NeverUsed(w.db, id)
    requires id in w.db.events ==> w.db.events[id].status == Closed
    ensures !NeverUsed(Next(w, step).db, id)
    ensures id in Next(w, step).db.events ==> id in w.db.events && Next(w, step).db.events[id] == w.db.events[id]
  {
    StepAdvances(w, step);
  }

  /** A closed event never changes again: as long as the row exists it is the row that was closed. */
  lemma {:induction false} ClosedIsFinal(w: World, steps: seq<Step>, id: nat)
    requires Valid(w) && id in w.db.events && w.db.events[id].status == Closed
    ensures !NeverUsed(Run(w, steps).db, id)
    ensures id in Run(w, steps).db.events ==> Run(w, steps).db.events[id] == w.db.events[id]
  {
    if steps == [] {
      PresentMeansUsed(w.db.commits, id);
    } else {
      var n := |steps| - 1;
      ClosedIsFinal(w, steps[..n], id);
      RunKeepsValid(w, steps[..n]);
      ClosedStepFinal(Run(w, steps[..n]), steps[n], id);
    }
  }
}

/** The event handlers without interference, assigning the event's fields. */
module EventDesk {
  import opened Common
  import opened Events

  class Desk {
    var events: map<nat, Event>
    var commits: seq<Commit>

    function Contents(): Db
      reads this
    {
      Db(events, commits)
    }

    /** Every event is as its lifecycle allows, and the rows are what the history of commits leaves. */
    ghost predicate Valid()
      reads this
    {
      DbOk(Contents())
    }

    constructor ()
      ensures Valid() && Contents() == Db(map[], [])
    {
      events, commits := map[], [];
    }

    method CreateEvent(id: nat, form: Form, today: int) returns (created: bool)
      requires Valid()
      modifies this
      ensures Valid()
      ensures Contents() == Create(old(Contents()), id, form, today)
      ensures created <==> CanCreate(old(Contents()), id, form, today)
    {
      CreateKeepsDb(Contents(), id, form, today);
      if !NeverUsed(Contents(), id) || Invalid(form.(status := "A"), today, false) != {} {
        return false;
      }
      var e := Event(form.details, form.startDate.day, Active, None, None, 1);
      commits := commits + [Commit(id, Created(form), Row(Contents(), id), Some(e))];
      events := events[id := e];
      return true;
    }

    method EditEvent(id: nat, submitted: nat, form: Form, today: int) returns (saved: bool)
      requires Valid()
      modifies this
      ensures Valid()
      ensures saved <==> EditGuards(old(Contents()), id, submitted, form, today)
      ensures Contents() == if saved then Saved(old(Contents()), Editing(id, submitted, form, old(events[id])), true)
                            else old(Contents())
    {
      if id !in events || events[id].status == Closed || submitted != events[id].version
         || Invalid(form, today, true) != {}
      {
        return false;
      }
      EditKeepsDb(Contents(), id, submitted, form, today);
      var e := events[id];
      e := e.(details := form.details);
      e := e.(startDate := form.startDate.day);
      e := e.(version := e.version + 1);
      commits := commits + [Commit(id, Edited(submitted, form), Row(Contents(), id), Some(e))];
      events := events[id := e];
      return true;
    }

    method CloseEvent(id: nat, date: DateField, reason: string, today: int) returns (closed: bool)
      requires Valid()
      modifies this
      ensures Valid()
      ensures Contents() == Close(old(Contents()), id, date, reason, today)
      ensures closed <==> CanClose(old(Contents()), id, date, reason, today)
    {
      CloseKeepsDb(Contents(), id, date, reason, today);
      if reason == "" || date.BadDate? {
        return false;
      }
      var day := if date.NoDate? then today else date.day;
      if id !in events || events[id].status == Closed || day < events[id].startDate || |reason| > 255 {
        return false;
      }
      var e := events[id];
      e := e.(status := Closed);
      e := e.(closedDate := Some(day));
      e := e.(reason := Some(reason));
      e := e.(version := e.version + 1);
      commits := commits + [Commit(id, ClosedNow(day, reason), Row(Contents(), id), Some(e))];
      events := events[id := e];
      return true;
    }
  }
}

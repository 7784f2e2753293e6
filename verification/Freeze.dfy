/** The freeze-request workflow: five endpoints over one table, each checked, committed and logged as
    one step, with users whose roles may change between steps. */
module Freeze {
  import opened Options

  // ---------------------------------------------------------------------------
  // State
  // ---------------------------------------------------------------------------

  datatype Status = Draft | PendingApproval | Approved | Rejected | Dispatched

  datatype User = User(role: string, active: bool)

  datatype FreezeRequest = FreezeRequest(
    caseId: string,
    target: string,
    status: Status,
    requestedBy: Option<string>,
    approvedBy: Option<string>,
    approvedAt: Option<int>,
    rejectionReason: Option<string>)

  datatype Action = Created | Submitted | ApprovedAction | RejectedAction | DispatchedAction | OtherAction(name: string)

  /** A row of the audit log. */
  datatype Entry = Entry(actor: Option<string>, action: Action, kind: string, subject: Option<string>)

  datatype World = World(
    users: map<string, User>,
    cases: set<string>,
    requests: map<string, FreezeRequest>,
    log: seq<Entry>)

  datatype Outcome = Done | Refused(code: int)

  predicate IsApproverRole(role: string) { role == "supervisor" || role == "admin" }

  /** `get_current_user`: a known, active account, looked up anew for every call. */
  predicate SignedIn(w: World, actor: string) {
    actor in w.users && w.users[actor].active
  }

  predicate MayApprove(w: World, actor: string) {
    SignedIn(w, actor) && IsApproverRole(w.users[actor].role)
  }

  function FreezeEntry(actor: string, action: Action, subject: Option<string>): Entry {
    Entry(Some(actor), action, "freeze_request", subject)
  }

  // ---------------------------------------------------------------------------
  // The endpoints as transitions
  // ---------------------------------------------------------------------------

  function Put(w: World, id: string, fr: FreezeRequest, e: Entry): World {
    w.(requests := w.requests[id := fr], log := w.log + [e])
  }

  /** `require_approver` and the look-up, in the order the framework runs them: the code a caller gets
      when a step is refused before its own rules are looked at. */
  function Gate(w: World, actor: string, needsApprover: bool, id: string): Outcome {
    if !SignedIn(w, actor) then Refused(401)
    else if needsApprover && !MayApprove(w, actor) then Refused(403)
    else if id !in w.requests then Refused(404)
    else Done
  }

  function AfterCreate(w: World, actor: string, id: string, caseId: string, target: string): (Outcome, World) {
    if !SignedIn(w, actor) then (Refused(401), w)
    else if caseId !in w.cases then (Refused(404), w)
    else (Done, Put(w, id, FreezeRequest(caseId, target, Draft, Some(actor), None, None, None),
                    FreezeEntry(actor, Created, None)))
  }

  function AfterSubmit(w: World, actor: string, id: string): (Outcome, World) {
    var g := Gate(w, actor, false, id);
    if g != Done then (g, w)
    else if w.requests[id].status != Draft then (Refused(409), w)
    else (Done, Put(w, id, w.requests[id].(status := PendingApproval), FreezeEntry(actor, Submitted, Some(id))))
  }

  function AfterApprove(w: World, actor: string, id: string, now: int): (Outcome, World) {
    var g := Gate(w, actor, true, id);
    if g != Done then (g, w)
    else if w.requests[id].status != PendingApproval then (Refused(409), w)
    else if w.requests[id].requestedBy == Some(actor) then (Refused(403), w)
    else (Done, Put(w, id, w.requests[id].(status := Approved, approvedBy := Some(actor), approvedAt := Some(now)),
                    FreezeEntry(actor, ApprovedAction, Some(id))))
  }

  function AfterReject(w: World, actor: string, id: string, reason: string, now: int): (Outcome, World) {
    var g := Gate(w, actor, true, id);
    if g != Done then (g, w)
    else if w.requests[id].status != PendingApproval && w.requests[id].status != Draft then (Refused(409), w)
    else (Done, Put(w, id, w.requests[id].(status := Rejected, rejectionReason := Some(reason),
                                           approvedBy := Some(actor), approvedAt := Some(now)),
                    FreezeEntry(actor, RejectedAction, Some(id))))
  }

  function AfterDispatch(w: World, actor: string, id: string): (Outcome, World) {
    var g := Gate(w, actor, true, id);
    if g != Done then (g, w)
    else if w.requests[id].status != Approved then (Refused(409), w)
    else (Done, Put(w, id, w.requests[id].(status := Dispatched), FreezeEntry(actor, DispatchedAction, Some(id))))
  }

  // ---------------------------------------------------------------------------
  // The endpoints
  // ---------------------------------------------------------------------------

  class Workflow {
    var users: map<string, User>
    var cases: set<string>
    var requests: map<string, FreezeRequest>
    var log: seq<Entry>

    ghost function View(): World
      reads this
    {
      World(users, cases, requests, log)
    }

    constructor (users: map<string, User>, cases: set<string>)
      ensures View() == World(users, cases, map[], [])
    {
      this.users, this.cases, this.requests, this.log := users, cases, map[], [];
    }

    /** `record_audit` */
    method RecordAudit(actor: Option<string>, action: Action, kind: string, subject: Option<string>)
      modifies this`log
      ensures log == old(log) + [Entry(actor, action, kind, subject)]
    {
      log := log + [Entry(actor, action, kind, subject)];
    }

    /** `get_current_user` and, where asked, `require_approver`. */
    method Admit(actor: string, needsApprover: bool) returns (o: Outcome)
      ensures o == if !SignedIn(View(), actor) then Refused(401)
                   else if needsApprover && !MayApprove(View(), actor) then Refused(403) else Done
    {
      if actor !in users || !users[actor].active {
        return Refused(401);
      }
      if needsApprover && !IsApproverRole(users[actor].role) {
        return Refused(403);
      }
      return Done;
    }

    /** `create_request`; `id` is the fresh key the database hands out. */
    method Create(actor: string, id: string, caseId: string, target: string) returns (o: Outcome)
      requires id !in requests
      modifies this
      ensures (o, View()) == AfterCreate(old(View()), actor, id, caseId, target)
    {
      o := Admit(actor, false);
      if o != Done { return; }
      if caseId !in cases {
        return Refused(404);
      }
      var fr := FreezeRequest(caseId, target, Draft, Some(actor), None, None, None);
      requests := requests[id := fr];
      RecordAudit(Some(actor), Created, "freeze_request", None);
      return Done;
    }

    /** `submit_for_approval` */
    method Submit(actor: string, id: string) returns (o: Outcome)
      modifies this
      ensures (o, View()) == AfterSubmit(old(View()), actor, id)
    {
      o := Admit(actor, false);
      if o != Done { return; }
      if id !in requests {
        return Refused(404);
      }
      var fr := requests[id];
      if fr.status != Draft {
        return Refused(409);
      }
      fr := fr.(status := PendingApproval);
      requests := requests[id := fr];
      RecordAudit(Some(actor), Submitted, "freeze_request", Some(id));
      return Done;
    }

    /** `approve_request` */
    method Approve(actor: string, id: string, now: int) returns (o: Outcome)
      modifies this
      ensures (o, View()) == AfterApprove(old(View()), actor, id, now)
    {
      o := Admit(actor, true);
      if o != Done { return; }
      if id !in requests {
        return Refused(404);
      }
      var fr := requests[id];
      if fr.status != PendingApproval {
        return Refused(409);
      }
      if fr.requestedBy.Some? && fr.requestedBy.value == actor {
        return Refused(403);
      }
      fr := fr.(status := Approved);
      fr := fr.(approvedBy := Some(actor));
      fr := fr.(approvedAt := Some(now));
      requests := requests[id := fr];
      RecordAudit(Some(actor), ApprovedAction, "freeze_request", Some(id));
      return Done;
    }

    /** `reject_request` */
    method Reject(actor: string, id: string, reason: string, now: int) returns (o: Outcome)
      modifies this
      ensures (o, View()) == AfterReject(old(View()), actor, id, reason, now)
    {
      o := Admit(actor, true);
      if o != Done { return; }
      if id !in requests {
        return Refused(404);
      }
      var fr := requests[id];
      if fr.status != PendingApproval && fr.status != Draft {
        return Refused(409);
      }
      fr := fr.(status := Rejected);
      fr := fr.(rejectionReason := Some(reason));
      fr := fr.(approvedBy := Some(actor));
      fr := fr.(approvedAt := Some(now));
      requests := requests[id := fr];
      RecordAudit(Some(actor), RejectedAction, "freeze_request", Some(id));
      return Done;
    }

    /** `dispatch_request` */
    method Dispatch(actor: string, id: string) returns (o: Outcome)
      modifies this
      ensures (o, View()) == AfterDispatch(old(View()), actor, id)
    {
      o := Admit(actor, true);
      if o != Done { return; }
      if id !in requests {
        return Refused(404);
      }
      var fr := requests[id];
      if fr.status != Approved {
        return Refused(409);
      }
      fr := fr.(status := Dispatched);
      requests := requests[id := fr];
      RecordAudit(Some(actor), DispatchedAction, "freeze_request", Some(id));
      return Done;
    }
  }

  // ---------------------------------------------------------------------------
  // Runs
  // ---------------------------------------------------------------------------

  datatype Event =
    | Create(actor: string, id: string, caseId: string, target: string)
    | Submit(actor: string, id: string)
    | Approve(actor: string, id: string, now: int)
    | Reject(actor: string, id: string, reason: string, now: int)
    | Dispatch(actor: string, id: string)
    | SetUser(name: string, user: User)
    | OpenCase(caseId: string)
    | OtherAudit(entry: Entry)

  function Step(w: World, e: Event): World {
    match e
    case Create(actor, id, caseId, target) => if id in w.requests then w else AfterCreate(w, actor, id, caseId, target).1
    case Submit(actor, id) => AfterSubmit(w, actor, id).1
    case Approve(actor, id, now) => AfterApprove(w, actor, id, now).1
    case Reject(actor, id, reason, now) => AfterReject(w, actor, id, reason, now).1
    case Dispatch(actor, id) => AfterDispatch(w, actor, id).1
    case SetUser(name, user) => w.(users := w.users[name := user])
    case OpenCase(caseId) => w.(cases := w.cases + {caseId})
    case OtherAudit(entry) => if entry.kind == "freeze_request" then w else w.(log := w.log + [entry])
  }

  function Run(w: World, events: seq<Event>): World {
    if events == [] then w else Step(Run(w, events[..|events| - 1]), events[|events| - 1])
  }

  predicate Fresh(w: World) { w.requests == map[] && w.log == [] }

  // ---------------------------------------------------------------------------
  // What the log says
  // ---------------------------------------------------------------------------

  predicate About(e: Entry, id: string) {
    e.kind == "freeze_request" && e.subject == Some(id)
  }

  /** The entries carrying a request's id, oldest first. */
  function Story(log: seq<Entry>, id: string): seq<Entry> {
    if log == [] then []
    else
      var before, e := Story(log[..|log| - 1], id), log[|log| - 1];
      if About(e, id) then before + [e] else before
  }

  lemma StoryLast(log: seq<Entry>, e: Entry, id: string)
    ensures Story(log + [e], id) == if About(e, id) then Story(log, id) + [e] else Story(log, id)
  {
    assert (log + [e])[..|log|] == log;
  }

  /** What the log lets a reader reconstruct of one request. */
  datatype Standing = Standing(status: Status, decidedBy: Option<string>)

  function Advance(s: Standing, e: Entry): Option<Standing> {
    match (s.status, e.action)
    case (Draft, Submitted) => Some(s.(status := PendingApproval))
    case (PendingApproval, ApprovedAction) => Some(Standing(Approved, e.actor))
    case (Draft, RejectedAction) => Some(Standing(Rejected, e.actor))
    case (PendingApproval, RejectedAction) => Some(Standing(Rejected, e.actor))
    case (Approved, DispatchedAction) => Some(s.(status := Dispatched))
    case _ => None
  }

  /** Replaying a story from a new draft; `None` for a story the workflow cannot tell. */
  function Replay(story: seq<Entry>): Option<Standing> {
    if story == [] then Some(Standing(Draft, None))
    else
      match Replay(story[..|story| - 1])
      case None => None
      case Some(s) => Advance(s, story[|story| - 1])
  }

  function Words(story: seq<Entry>): (w: seq<Action>)
    ensures |w| == |story|
  {
    seq(|story|, i requires 0 <= i < |story| => story[i].action)
  }

  predicate Legal(w: seq<Action>) {
    w <= [Submitted, ApprovedAction, DispatchedAction] || w == [RejectedAction] || w == [Submitted, RejectedAction]
  }

  /** The status a legal word ends in. */
  function EndOf(w: seq<Action>): Status {
    if w == [] then Draft
    else
      match w[|w| - 1]
      case Submitted => PendingApproval
      case ApprovedAction => Approved
      case DispatchedAction => Dispatched
      case _ => Rejected
  }

  /** Exactly these words can be replayed: the prefixes of submit, approve, dispatch; reject; submit,
      reject. */
  lemma {:induction false} LegalWords(story: seq<Entry>)
    ensures Replay(story).Some? <==> Legal(Words(story))
    ensures Replay(story).Some? ==> Replay(story).value.status == EndOf(Words(story))
  {
    if story != [] {
      var init, e := story[..|story| - 1], story[|story| - 1];
      LegalWords(init);
      var u, w := Words(init), Words(story);
      assert w == u + [e.action];
      assert u == w[..|u|];
      LegalStep(u, e.action);
      assert Replay(init).Some? ==> Advance(Replay(init).value, e).Some? == Legal(w);
    }
  }

  /** How a legal word can grow. */
  lemma LegalStep(u: seq<Action>, a: Action)
    ensures Legal(u + [a]) <==>
            Legal(u) && (match EndOf(u)
                         case Draft => a == Submitted || a == RejectedAction
                         case PendingApproval => a == ApprovedAction || a == RejectedAction
                         case Approved => a == DispatchedAction
                         case _ => false)
  {
    var w := u + [a];
    assert |w| == |u| + 1 && w[|u|] == a && w[..|u|] == u;
    var full := [Submitted, ApprovedAction, DispatchedAction];
    if w <= full {
      assert u <= full;
      assert w == full[..|w|];
    }
    if Legal(u) {
      if |u| == 0 { assert w == [a]; }
      if |u| == 1 { assert w == [u[0], a]; }
      if |u| == 2 { assert w == [u[0], u[1], a]; }
    }
  }

  // ---------------------------------------------------------------------------
  // The log replays to the state
  // ---------------------------------------------------------------------------

  ghost predicate Told(w: World, id: string) {
    if id in w.requests then
      Replay(Story(w.log, id)) == Some(Standing(w.requests[id].status, w.requests[id].approvedBy))
    else
      Story(w.log, id) == []
  }

  function StandingOf(fr: FreezeRequest): Standing { Standing(fr.status, fr.approvedBy) }

  /** A step that leaves the table and the log alone. */
  lemma QuietStep(w: World, v: World, id: string)
    requires Told(w, id) && v.requests == w.requests && v.log == w.log
    ensures Told(v, id)
  {}

  /** A step that logs something else. */
  lemma ElsewhereStep(w: World, v: World, e: Entry, id: string)
    requires Told(w, id) && v.log == w.log + [e] && !About(e, id)
    requires id in w.requests ==> id in v.requests && v.requests[id] == w.requests[id]
    requires id in v.requests && id !in w.requests ==> StandingOf(v.requests[id]) == Standing(Draft, None)
    ensures Told(v, id)
  {
    StoryLast(w.log, e, id);
  }

  /** A step on the request itself. */
  lemma OwnStep(w: World, v: World, e: Entry, id: string)
    requires Told(w, id) && v.log == w.log + [e] && About(e, id)
    requires id in w.requests && id in v.requests
    requires Advance(StandingOf(w.requests[id]), e) == Some(StandingOf(v.requests[id]))
    ensures Told(v, id)
  {
    StoryLast(w.log, e, id);
    var story := Story(w.log, id);
    assert (story + [e])[..|story|] == story;
  }

  lemma StepKeepsTold(w: World, e: Event, id: string)
    requires Told(w, id)
    ensures Told(Step(w, e), id)
  {
    hide Told, Story, Replay;
    var v := Step(w, e);
    if v.log == w.log {
      LogTellsChange(w, e);
      QuietStep(w, v, id);
    } else {
      LogTellsChange(w, e);
      var entry := v.log[|w.log|];
      if About(entry, id) {
        OwnStep(w, v, entry, id);
      } else {
        ElsewhereStep(w, v, entry, id);
      }
    }
  }

  /** Nothing changes in the table without an entry, and a step writes at most one. */
  lemma LogTellsChange(w: World, e: Event)
    ensures Step(w, e).log == w.log ==> Step(w, e).requests == w.requests
    ensures Step(w, e).log == w.log || (|Step(w, e).log| == |w.log| + 1 && Step(w, e).log[..|w.log|] == w.log)
  {}

  /** After any run, with roles changing in between, each request's status and decider are the replay
      of its audit entries, and those entries spell a legal word. */
  lemma {:induction false} LogReplays(w: World, events: seq<Event>, id: string)
    requires Fresh(w)
    ensures Told(Run(w, events), id)
    ensures id in Run(w, events).requests ==>
              var fr := Run(w, events).requests[id];
              Legal(Words(Story(Run(w, events).log, id))) && fr.status == EndOf(Words(Story(Run(w, events).log, id)))
  {
    if events != [] {
      LogReplays(w, events[..|events| - 1], id);
      hide Step;
      StepKeepsTold(Run(w, events[..|events| - 1]), events[|events| - 1], id);
    }
    LegalWords(Story(Run(w, events).log, id));
  }

  // ---------------------------------------------------------------------------
  // Who approved
  // ---------------------------------------------------------------------------

  /** An active account with one of the two approving roles. */
  ghost predicate Officer(w: World, a: string) {
    a in w.users && w.users[a].active && (w.users[a].role == "supervisor" || w.users[a].role == "admin")
  }

  /** Event `i` of the run approved the request, by `actor`, who held an approving role at that moment
      and had not raised it. */
  ghost predicate ApprovedAt(w: World, events: seq<Event>, i: nat, id: string, actor: string) {
    && i < |events|
    && events[i].Approve? && events[i].id == id && events[i].actor == actor
    && var before := Run(w, events[..i]);
    && Officer(before, actor)
    && id in before.requests
    && before.requests[id].status == PendingApproval
    && before.requests[id].requestedBy != Some(actor)
  }

  predicate Through(w: World, id: string) {
    id in w.requests && w.requests[id].status in {Approved, Dispatched}
  }

  /** The one way into `approved`, and nothing out of it but dispatch. */
  lemma StepApproval(w: World, e: Event, id: string)
    ensures Through(w, id) ==>
              && Through(Step(w, e), id)
              && Step(w, e).requests[id].approvedBy == w.requests[id].approvedBy
              && Step(w, e).requests[id].requestedBy == w.requests[id].requestedBy
    ensures !Through(w, id) && Through(Step(w, e), id) ==>
              && e.Approve? && e.id == id && Officer(w, e.actor)
              && id in w.requests && w.requests[id].status == PendingApproval
              && w.requests[id].requestedBy != Some(e.actor)
              && Step(w, e).requests[id].approvedBy == Some(e.actor)
              && Step(w, e).requests[id].requestedBy == w.requests[id].requestedBy
    ensures e.Approve? && e.id == id && Officer(w, e.actor) && id in w.requests
            && w.requests[id].status == PendingApproval && w.requests[id].requestedBy != Some(e.actor)
            ==> Through(Step(w, e), id)
  {}

  /** An approved or dispatched request has an approver on record who held an approving role when
      approving and is not the one who raised it. */
  lemma {:induction false} ApprovedByAnotherOfficer(w: World, events: seq<Event>, id: string) returns (i: nat)
    requires Fresh(w) && Through(Run(w, events), id)
    ensures var fr := Run(w, events).requests[id];
            && fr.approvedBy.Some? && fr.requestedBy != fr.approvedBy
            && ApprovedAt(w, events, i, id, fr.approvedBy.value)
  {
    var n := |events| - 1;
    var init, e := events[..n], events[n];
    var u := Run(w, init);
    hide Step, Officer;
    StepApproval(u, e, id);
    if Through(u, id) {
      i := ApprovedByAnotherOfficer(w, init, id);
      assert init[..i] == events[..i];
    } else {
      i := n;
    }
  }

  lemma {:induction false} ThroughStays(w: World, events: seq<Event>, m: nat, n: nat, id: string)
    requires m <= n <= |events| && Through(Run(w, events[..m]), id)
    ensures Through(Run(w, events[..n]), id)
  {
    if m < n {
      ThroughStays(w, events, m, n - 1, id);
      assert events[..n][..n - 1] == events[..n - 1];
      RunLast(w, events[..n]);
      hide *;
      StepApproval(Run(w, events[..n - 1]), events[n - 1], id);
    }
  }

  /** A request is approved at most once. */
  lemma ApprovedOnce(w: World, events: seq<Event>, i: nat, j: nat, id: string, a: string, b: string)
    requires ApprovedAt(w, events, i, id, a) && ApprovedAt(w, events, j, id, b)
    ensures i == j
  {
    var first, second := if i < j then i else j, if i < j then j else i;
    if first < second {
      var u := Run(w, events[..first]);
      hide Step, Officer;
      assert events[..first + 1][..first] == events[..first];
      StepApproval(u, events[first], id);
      ThroughStays(w, events, first + 1, second, id);
    }
  }

  /** While nobody but the requester acts on it, a request is never approved. */
  lemma {:induction false} RequesterAloneNeverApproves(w: World, events: seq<Event>, id: string, requester: string)
    requires Fresh(w)
    requires forall e :: e in events && e.Approve? && e.id == id ==> e.actor == requester
    requires id in Run(w, events).requests && Run(w, events).requests[id].requestedBy == Some(requester)
    ensures !Through(Run(w, events), id)
  {
    if Through(Run(w, events), id) {
      var i := ApprovedByAnotherOfficer(w, events, id);
    }
  }

  // ---------------------------------------------------------------------------
  // Who wrote the log
  // ---------------------------------------------------------------------------

  /** Event `i` of the run wrote entry `k` of its log. */
  ghost predicate WrittenAt(w: World, events: seq<Event>, i: nat, k: nat) {
    && i < |events| && k < |Run(w, events).log|
    && |Run(w, events[..i]).log| == k
    && Run(w, events[..i + 1]).log == Run(w, events[..i]).log + [Run(w, events).log[k]]
  }

  lemma {:induction false} EntryIsWritten(w: World, events: seq<Event>, k: nat) returns (i: nat)
    requires w.log == [] && k < |Run(w, events).log|
    ensures WrittenAt(w, events, i, k)
  {
    var n := |events| - 1;
    var init, e := events[..n], events[n];
    hide Step;
    LogTellsChange(Run(w, init), e);
    if k < |Run(w, init).log| {
      i := EntryIsWritten(w, init, k);
      assert init[..i] == events[..i] && init[..i + 1] == events[..i + 1];
    } else {
      i := n;
      assert events[..n + 1] == events;
    }
  }

  /** What a step must have been to write an entry about freeze requests. */
  lemma StepEntry(w: World, e: Event, entry: Entry)
    requires Step(w, e).log == w.log + [entry] && entry.kind == "freeze_request"
    ensures entry.actor.Some? && entry.actor.value in w.users && w.users[entry.actor.value].active
    ensures entry.action in {Created, Submitted, ApprovedAction, RejectedAction, DispatchedAction}
    ensures entry.action in {ApprovedAction, RejectedAction, DispatchedAction} ==> Officer(w, entry.actor.value)
  {
    assert (w.log + [entry])[|w.log|] == entry;
    assert Step(w, e).log[|w.log|] == entry;
  }

  /** Every entry about a request was written by a step of an account that was active at that moment;
      approvals, rejections and dispatches by one that held an approving role. */
  lemma DecisionsByOfficers(w: World, events: seq<Event>, k: nat) returns (i: nat)
    requires Fresh(w) && k < |Run(w, events).log| && Run(w, events).log[k].kind == "freeze_request"
    ensures WrittenAt(w, events, i, k)
    ensures var entry, before := Run(w, events).log[k], Run(w, events[..i]);
            && entry.actor.Some? && entry.actor.value in before.users && before.users[entry.actor.value].active
            && (entry.action in {ApprovedAction, RejectedAction, DispatchedAction} ==>
                  before.users[entry.actor.value].role == "supervisor" || before.users[entry.actor.value].role == "admin")
  {
    i := EntryIsWritten(w, events, k);
    assert events[..i + 1][..i] == events[..i];
    hide Step;
    StepEntry(Run(w, events[..i]), events[i], Run(w, events).log[k]);
  }

  // ---------------------------------------------------------------------------
  // Refusals
  // ---------------------------------------------------------------------------

  function OutcomeOf(w: World, e: Event): Outcome {
    match e
    case Create(actor, id, caseId, target) => AfterCreate(w, actor, id, caseId, target).0
    case Submit(actor, id) => AfterSubmit(w, actor, id).0
    case Approve(actor, id, now) => AfterApprove(w, actor, id, now).0
    case Reject(actor, id, reason, now) => AfterReject(w, actor, id, reason, now).0
    case Dispatch(actor, id) => AfterDispatch(w, actor, id).0
    case _ => Done
  }

  /** The steps on an existing request. */
  predicate OnRequest(e: Event) { e.Submit? || e.Approve? || e.Reject? || e.Dispatch? }

  /** The statuses a step may start from. */
  ghost function StartsFrom(e: Event): set<Status> {
    match e
    case Submit(_, _) => {Draft}
    case Approve(_, _, _) => {PendingApproval}
    case Reject(_, _, _, _) => {Draft, PendingApproval}
    case Dispatch(_, _) => {Approved}
    case _ => {}
  }

  /** Which refusal a caller sees, and that it changes nothing. */
  lemma Outcomes(w: World, e: Event)
    requires OnRequest(e)
    ensures var o := OutcomeOf(w, e);
            var known := e.actor in w.users && w.users[e.actor].active;
            var allowed := known && (e.Submit? || Officer(w, e.actor));
            var found := allowed && e.id in w.requests;
            var ready := found && w.requests[e.id].status in StartsFrom(e);
            var own := ready && e.Approve? && w.requests[e.id].requestedBy == Some(e.actor);
            && (o == Done <==> ready && !own)
            && (o == Refused(401) <==> !known)
            && (o == Refused(403) <==> (known && !allowed) || own)
            && (o == Refused(404) <==> allowed && !found)
            && (o == Refused(409) <==> found && !ready)
            && (o != Done ==> Step(w, e) == w)
  {}

  /** Who may draft a request, and the order of the refusals. */
  lemma CreateOutcomes(w: World, e: Event)
    requires e.Create? && e.id !in w.requests
    ensures var o := OutcomeOf(w, e);
            var known := e.actor in w.users && w.users[e.actor].active;
            && (o == Done <==> known && e.caseId in w.cases)
            && (o == Refused(401) <==> !known)
            && (o == Refused(404) <==> known && e.caseId !in w.cases)
            && (o != Done ==> Step(w, e) == w)
            && (o == Done ==>
                  e.id in Step(w, e).requests
                  && Step(w, e).requests[e.id] == FreezeRequest(e.caseId, e.target, Draft, Some(e.actor), None, None, None))
  {}

  // ---------------------------------------------------------------------------
  // What stays on record
  // ---------------------------------------------------------------------------

  /** Nothing of what was asked for, or by whom, ever changes, and no request goes away. */
  lemma {:induction false} RequestsKeepTheirFacts(w: World, events: seq<Event>, id: string)
    requires id in w.requests
    ensures id in Run(w, events).requests
    ensures var was, now := w.requests[id], Run(w, events).requests[id];
            now.caseId == was.caseId && now.target == was.target && now.requestedBy == was.requestedBy
  {
    if events != [] {
      RequestsKeepTheirFacts(w, events[..|events| - 1], id);
      StepKeepsFacts(Run(w, events[..|events| - 1]), events[|events| - 1], id);
    }
  }

  lemma StepKeepsFacts(w: World, e: Event, id: string)
    requires id in w.requests
    ensures id in Step(w, e).requests
    ensures var was, now := w.requests[id], Step(w, e).requests[id];
            now.caseId == was.caseId && now.target == was.target && now.requestedBy == was.requestedBy
  {}

  /** Event `i` decided the request, as it stands on record. */
  ghost predicate DecidedAt(w: World, events: seq<Event>, i: nat, id: string, fr: FreezeRequest) {
    && i < |events| && (events[i].Approve? || events[i].Reject?) && events[i].id == id
    && fr.approvedBy == Some(events[i].actor) && Officer(Run(w, events[..i]), events[i].actor)
    && fr.approvedAt == Some(events[i].now)
    && fr.rejectionReason == if events[i].Reject? then Some(events[i].reason) else None
  }

  ghost predicate Undecided(fr: FreezeRequest) {
    fr.approvedBy == None && fr.approvedAt == None && fr.rejectionReason == None
  }

  /** A draft or pending request carries no decision; any other carries who decided, when, and for a
      rejection why, as the deciding step gave them. */
  lemma {:induction false} DecisionOnRecord(w: World, events: seq<Event>, id: string) returns (i: nat)
    requires Fresh(w) && id in Run(w, events).requests
    ensures var fr := Run(w, events).requests[id];
            if fr.status in {Draft, PendingApproval} then Undecided(fr)
            else DecidedAt(w, events, i, id, fr) && (events[i].Reject? <==> fr.status == Rejected)
  {
    var n := |events| - 1;
    var init, e := events[..n], events[n];
    var u := Run(w, init);
    i := n;
    hide Officer, Run;
    assert Run(w, events) == Step(u, e) by { RunLast(w, events); }
    StepDecision(u, e, id);
    if id in u.requests {
      var j := DecisionOnRecord(w, init, id);
      if !Decides(u, e, id) {
        i := j;
        if u.requests[id].status !in {Draft, PendingApproval} {
          assert init[..j] == events[..j];
        }
      }
    }
  }

  lemma RunLast(w: World, events: seq<Event>)
    requires events != []
    ensures Run(w, events) == Step(Run(w, events[..|events| - 1]), events[|events| - 1])
  {}

  ghost predicate Decides(w: World, e: Event, id: string) {
    (e.Approve? || e.Reject?) && e.id == id && OutcomeOf(w, e) == Done
  }

  /** A step decides a request, or leaves what is on record about it. */
  lemma StepDecision(w: World, e: Event, id: string)
    requires id in Step(w, e).requests
    ensures var fr := Step(w, e).requests[id];
            if id !in w.requests then fr.status == Draft && Undecided(fr)
            else if Decides(w, e, id) then
              && w.requests[id].status in {Draft, PendingApproval} && fr.status in {Approved, Rejected}
              && (e.Reject? <==> fr.status == Rejected) && Officer(w, e.actor)
              && fr.approvedBy == Some(e.actor) && fr.approvedAt == Some(e.now)
              && (if e.Reject? then fr.rejectionReason == Some(e.reason)
                  else fr.rejectionReason == w.requests[id].rejectionReason)
            else
              && fr.approvedBy == w.requests[id].approvedBy && fr.approvedAt == w.requests[id].approvedAt
              && fr.rejectionReason == w.requests[id].rejectionReason
              && (fr.status in {Draft, PendingApproval} <==> w.requests[id].status in {Draft, PendingApproval})
              && (fr.status == Rejected <==> w.requests[id].status == Rejected)
  {}

  /** Event `i` drafted the request, for a case known at that moment and by an account active then. */
  ghost predicate DraftedAt(w: World, events: seq<Event>, i: nat, id: string, fr: FreezeRequest) {
    && i < |events| && events[i].Create? && events[i].id == id
    && fr.caseId == events[i].caseId && fr.target == events[i].target && fr.requestedBy == Some(events[i].actor)
    && var before := Run(w, events[..i]);
       events[i].caseId in before.cases && events[i].actor in before.users && before.users[events[i].actor].active
  }

  /** Every request was drafted by its requester, as what it still asks for. */
  lemma {:induction false} DraftedByRequester(w: World, events: seq<Event>, id: string) returns (i: nat)
    requires Fresh(w) && id in Run(w, events).requests
    ensures DraftedAt(w, events, i, id, Run(w, events).requests[id])
  {
    var n := |events| - 1;
    var init, e := events[..n], events[n];
    var u := Run(w, init);
    assert Run(w, events) == Step(u, e) by { RunLast(w, events); }
    if id in u.requests {
      i := DraftedByRequester(w, init, id);
      StepKeepsFacts(u, e, id);
      hide Step, Run;
      assert init[..i] == events[..i];
    } else {
      i := n;
      OnlyCreateAdds(u, e, id);
    }
  }

  lemma OnlyCreateAdds(w: World, e: Event, id: string)
    requires id !in w.requests && id in Step(w, e).requests
    ensures e.Create? && e.id == id && e.caseId in w.cases && e.actor in w.users && w.users[e.actor].active
    ensures var fr := Step(w, e).requests[id];
            fr.caseId == e.caseId && fr.target == e.target && fr.requestedBy == Some(e.actor)
  {}
}

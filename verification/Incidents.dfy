/** core/hitl.py: the incidents table, the gate that writes it, and what the approve route of
    api/routes/incidents.py checks before it does. */
module Incidents {
  import opened Wrappers
  import Notifications

  type Id = nat

  datatype Status = Pending | Executing | Executed | Held | Failed | Rejected | ResolvedManually | BudgetExceeded

  datatype Choice = Hold | Pick(option: nat) | Custom(input: string)

  type Severity = Notifications.Severity

  /** A row: its status and severity, the option ids on offer, the choice made, the tokens spent, and the
      run that wrote it. */
  datatype Incident = Incident(
    status: Status, severity: Severity, options: seq<nat>, selected: Option<Choice>, tokens: nat, run: Id)

  /** A dispatch to the notification channels. */
  datatype Notice = Created(id: Id) | FailedAtOnce(id: Id)

  /** What a notice tells the channels of its incident: the id and the status; the severity stays behind. */
  datatype NoticeSummary = NoticeSummary(id: Id, status: Status, severity: Option<Severity>)

  function SummaryOf(notice: Notice): NoticeSummary {
    NoticeSummary(notice.id, if notice.Created? then Pending else Failed, None)
  }

  datatype Db = Db(incidents: map<Id, Incident>, notices: seq<Notice>)

  // ---- what the gate does to the tables ----

  /** ON CONFLICT (id) DO NOTHING, and a notice only if a row went in. */
  function WithIncident(db: Db, id: Id, run: Id, severity: Severity, options: seq<nat>, tokens: nat): Db {
    if id in db.incidents then db
    else Db(db.incidents[id := Incident(Pending, severity, options, None, tokens, run)], db.notices + [Created(id)])
  }

  /** The severity is the column's default. */
  function WithFailedIncident(db: Db, id: Id, run: Id): Db {
    Db(db.incidents[id := Incident(Failed, Notifications.Medium, [], None, 0, run)], db.notices + [FailedAtOnce(id)])
  }

  function StatusAfter(choice: Choice): Status {
    if choice.Hold? then Held else Executing
  }

  function WithApproval(db: Db, id: Id, choice: Choice): Db {
    if id !in db.incidents then db
    else
      var row := db.incidents[id].(status := StatusAfter(choice), selected := Some(choice));
      db.(incidents := db.incidents[id := row])
  }

  function WithStatus(db: Db, id: Id, status: Status, tokens: nat): Db {
    if id !in db.incidents then db
    else
      var row := db.incidents[id].(status := status, tokens := db.incidents[id].tokens + tokens);
      db.(incidents := db.incidents[id := row])
  }

  datatype RouteError = NotFound | Conflict | InputMissing | UnknownOption

  /** The checks of the approve route, in its order. */
  function Checked(db: Db, id: Id, choice: Choice): Result<Status, RouteError> {
    if id !in db.incidents then Err(NotFound)
    else if db.incidents[id].status != Pending then Err(Conflict)
    else if choice == Custom("") then Err(InputMissing)
    else if choice.Pick? && choice.option !in db.incidents[id].options then Err(UnknownOption)
    else Ok(StatusAfter(choice))
  }

  /** The option an agent may act on. */
  function ApprovedOption(row: Incident): Option<Choice> {
    if row.status !in {Executing, Executed} then None
    else match row.selected
      case Some(Custom(input)) => Some(Custom(input))
      case Some(Pick(option)) => if option in row.options then Some(Pick(option)) else None
      case _ => None
  }

  class HITLGate {
    var incidents: map<Id, Incident>
    var notices: seq<Notice>

    constructor ()
      ensures View() == Db(map[], [])
    {
      incidents, notices := map[], [];
    }

    function View(): Db
      reads this
    {
      Db(incidents, notices)
    }

    /** With an id of the caller's choosing, a second call is no second incident and no second notice.
        Without one the database makes a new id. */
    method CreateIncident(
      id: Option<Id>, newId: Id, run: Id, severity: Severity, options: seq<nat>, tokens: nat) returns (created: Id)
      requires newId !in incidents
      modifies this
      ensures created == if id.Some? then id.value else newId
      ensures View() == WithIncident(old(View()), created, run, severity, options, tokens)
      ensures created !in old(incidents) ==>
                && incidents == old(incidents)[created := Incident(Pending, severity, options, None, tokens, run)]
                && notices == old(notices) + [Created(created)]
      ensures created in incidents
      ensures created in old(incidents) ==> incidents == old(incidents) && notices == old(notices)
    {
      created := if id.Some? then id.value else newId;
      if created in incidents {
        return;
      }
      incidents := incidents[created := Incident(Pending, severity, options, None, tokens, run)];
      notices := notices + [Created(created)];
    }

    method CreateFailedIncident(newId: Id, run: Id) returns (created: Id)
      requires newId !in incidents
      modifies this
      ensures created == newId && View() == WithFailedIncident(old(View()), newId, run)
    {
      incidents := incidents[newId := Incident(Failed, Notifications.Medium, [], None, 0, run)];
      notices := notices + [FailedAtOnce(newId)];
      return newId;
    }

    method ApproveIncident(id: Id, choice: Choice)
      modifies this`incidents
      ensures View() == WithApproval(old(View()), id, choice)
      ensures id in old(incidents) ==>
                var status := if choice == Hold then Held else Executing;
                incidents == old(incidents)[id := old(incidents)[id].(status := status, selected := Some(choice))]
    {
      var status := if choice == Hold then Held else Executing;
      if id in incidents {
        incidents := incidents[id := incidents[id].(status := status, selected := Some(choice))];
      }
    }

    method MarkExecuted(id: Id, tokens: nat)
      modifies this`incidents
      ensures View() == WithStatus(old(View()), id, Executed, tokens)
      ensures id in old(incidents) ==>
                var spent := old(incidents)[id].tokens + tokens;
                incidents == old(incidents)[id := old(incidents)[id].(status := Executed, tokens := spent)]
    {
      if id in incidents {
        incidents := incidents[id := incidents[id].(status := Executed, tokens := incidents[id].tokens + tokens)];
      }
    }

    method MarkFailed(id: Id)
      modifies this`incidents
      ensures View() == WithStatus(old(View()), id, Failed, 0)
      ensures id in old(incidents) ==> incidents == old(incidents)[id := old(incidents)[id].(status := Failed)]
    {
      if id in incidents {
        incidents := incidents[id := incidents[id].(status := Failed)];
      }
    }

    /** Never an option for an incident that nobody approved. */
    method GetApprovedOption(id: Id) returns (r: Result<Option<Choice>, RouteError>)
      ensures r == if id in incidents then Ok(ApprovedOption(incidents[id])) else Err(NotFound)
      ensures r.Ok? && r.value.Some? ==>
                incidents[id].selected == r.value && incidents[id].status in {Executing, Executed}
                  && !r.value.value.Hold?
    {
      if id !in incidents {
        return Err(NotFound);
      }
      var row := incidents[id];
      if row.status == Held {
        return Ok(None);
      }
      if row.status != Executing && row.status != Executed {
        return Ok(None);
      }
      if row.selected.None? {
        return Ok(None);
      }
      match row.selected.value {
        case Custom(input) => return Ok(Some(Custom(input)));
        case Pick(option) => return Ok(if option in row.options then Some(Pick(option)) else None);
        case Hold => return Ok(None);
      }
    }
  }

  /** What the gate reads back after an approval that passes the route's checks is exactly the choice
      made, or nothing for a hold; and before it, nothing. */
  lemma ApprovalReachesTheAgent(db: Db, id: Id, choice: Choice)
    requires Checked(db, id, choice).Ok?
    ensures ApprovedOption(WithApproval(db, id, choice).incidents[id]) == if choice.Hold? then None else Some(choice)
    ensures WithApproval(db, id, choice).incidents[id].status == Checked(db, id, choice).value
    ensures ApprovedOption(db.incidents[id]) == None
  {
  }

  /** The route lets an approval through exactly for a pending incident and a hold, a text or an option on
      offer. */
  lemma PassesChecksExactlyWhen(db: Db, id: Id, choice: Choice)
    ensures Checked(db, id, choice).Ok? <==>
              && id in db.incidents && db.incidents[id].status == Pending
              && (choice.Hold? || (choice.Custom? && choice.input != "")
                  || (choice.Pick? && choice.option in db.incidents[id].options))
  {
  }
}

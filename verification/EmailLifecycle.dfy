/** The e-mail lifecycle: the send gate and ledger of core/marketing_email.py, the enrolments of
    core/email_enrollment.py and the passes of core/email_scheduler.py. */
module EmailLifecycle {
  import opened Wrappers

  /** Microseconds. */
  type Time = int

  const HOUR: int := 3_600_000_000
  const DAY: int := 24 * HOUR
  const CAP_INTERVAL: int := DAY
  const CLAIM_LIMIT: nat := 100

  /** An e-mail address: what lower() makes of it, and its spelling. */
  datatype Address = Address(lower: nat, spelling: nat)

  type SubscriberId = nat
  type SequenceKey = nat
  type Key = (SubscriberId, SequenceKey)

  const TRUST_DRIP: SequenceKey := 0
  const NEWSLETTER: SequenceKey := 1

  datatype EnrollmentStatus = Active | Done | Exited

  datatype Enrollment = Enrollment(step: nat, status: EnrollmentStatus, nextAt: Time)

  datatype SendStatus = Sent | Suppressed | Failed

  /** A row of the ledger; the template stands for its sequence and step. */
  datatype Send = Send(recipient: Address, status: SendStatus, at: Time, enrollment: Key, step: nat)

  datatype Db = Db(sends: seq<Send>, suppressed: set<nat>, enrollments: map<Key, Enrollment>)

  // ---- the send gate ----

  predicate IsSuppressed(db: Db, email: Address) {
    email.lower in db.suppressed
  }

  predicate DailyCapReached(db: Db, email: Address, now: Time) {
    exists s :: s in db.sends && s.recipient == email && s.status == Sent && s.at >= now - CAP_INTERVAL
  }

  /** What happens when a message is built and handed over: Unconfigured is the missing signing key,
      Crashed any error that is not an EmailError. */
  datatype Mail = Accepted | Refused | Unconfigured | Crashed

  /** The outcome recorded for a call, if it returns one. */
  function SendOutcome(db: Db, recipient: Address, mail: Mail, now: Time): Option<SendStatus> {
    if IsSuppressed(db, recipient) || DailyCapReached(db, recipient, now) then Some(Suppressed)
    else match mail
      case Accepted => Some(Sent)
      case Refused => Some(Failed)
      case _ => None
  }

  /** The ledger with one row more. */
  function Noted(db: Db, send: Send): Db {
    db.(sends := db.sends + [send])
  }

  function AfterSend(db: Db, recipient: Address, mail: Mail, now: Time, key: Key, step: nat): Db {
    match SendOutcome(db, recipient, mail, now)
    case None => db
    case Some(status) => Noted(db, Send(recipient, status, now, key, step))
  }

  // ---- enrolments ----

  function Enrolled(db: Db, key: Key, now: Time): Db {
    db.(enrollments := db.enrollments[key := Enrollment(0, Active, now)])
  }

  function ExitedFrom(db: Db, key: Key): Db {
    if key in db.enrollments && db.enrollments[key].status.Active?
    then db.(enrollments := db.enrollments[key := db.enrollments[key].(status := Exited)]) else db
  }

  function ExitedFromAll(db: Db, subscriber: SubscriberId, except: set<SequenceKey>): Db {
    db.(enrollments := map key | key in db.enrollments ::
          if key.0 == subscriber && db.enrollments[key].status.Active? && key.1 !in except
          then db.enrollments[key].(status := Exited) else db.enrollments[key])
  }

  // ---- one row of a pass ----

  datatype ExitRule = OnWorkspaceActive | OnWorkspaceCanceled
  datatype WorkspaceStatus = WsActive | WsCanceled | WsOther

  /** An approved template: its delay, and whether its skip condition holds now. */
  datatype Template = Template(delayDays: int, skip: bool)

  /** What processing a row finds: the sequence, the workspace, the approved templates by step, how
      the mail goes, and the wall clock behind it. */
  datatype Env = Env(
    recipient: Address, sequenceActive: bool, exitRules: set<ExitRule>, workspace: Option<WorkspaceStatus>,
    templates: map<nat, Template>, mail: Mail, wall: Time)

  predicate ExitDue(env: Env) {
    || (OnWorkspaceActive in env.exitRules && env.workspace == Some(WsActive))
    || (OnWorkspaceCanceled in env.exitRules && env.workspace == Some(WsCanceled))
  }

  datatype Outcome =
    | Mailed(status: SendStatus) | Skipped | Left | Completed | SequenceInactive | RowRaised | PassAborted

  function OutcomeOf(db: Db, step: nat, env: Env, now: Time): Outcome {
    if !env.sequenceActive then SequenceInactive
    else if ExitDue(env) then Left
    else if step + 1 !in env.templates then Completed
    else if env.templates[step + 1].skip then Skipped
    else match SendOutcome(db, env.recipient, env.mail, now)
      case Some(status) => Mailed(status)
      case None => if env.mail.Unconfigured? then PassAborted else RowRaised
  }

  function Updated(db: Db, key: Key, e: Enrollment): Db {
    if key in db.enrollments then db.(enrollments := db.enrollments[key := e]) else db
  }

  function StatusOf(db: Db, key: Key): EnrollmentStatus {
    if key in db.enrollments then db.enrollments[key].status else Exited
  }

  function NextAtOf(db: Db, key: Key): Time {
    if key in db.enrollments then db.enrollments[key].nextAt else 0
  }

  function StepOf(db: Db, key: Key): nat {
    if key in db.enrollments then db.enrollments[key].step else 0
  }

  /** The enrolment moved past a mailed step, and due after the delay of the step behind it. */
  function Advanced(db: Db, key: Key, step: nat, env: Env): Db {
    var delay := if step + 2 in env.templates then env.templates[step + 2].delayDays else 0;
    Updated(db, key, Enrollment(step + 1, StatusOf(db, key), env.wall + delay * DAY))
  }

  /** _process_one on a row that was claimed at this step, with nothing in between. */
  function Processed(db: Db, key: Key, step: nat, env: Env, now: Time): Db {
    match OutcomeOf(db, step, env, now)
    case Left => ExitedFrom(db, key)
    case Completed =>
      var done := Updated(db, key, Enrollment(StepOf(db, key), Done, NextAtOf(db, key)));
      if key.1 == TRUST_DRIP then Enrolled(done, (key.0, NEWSLETTER), now) else done
    case Skipped => Updated(db, key, Enrollment(step + 1, StatusOf(db, key), now))
    case Mailed(_) => Advanced(AfterSend(db, env.recipient, env.mail, now, key, step + 1), key, step, env)
    case _ => db
  }

  // ---- a whole pass ----

  /** A claimed row: the key, the step it was read at, and what its processing will find. */
  datatype Claim = Claim(key: Key, step: nat, env: Env)

  function AfterClaims(db: Db, claims: seq<Claim>, now: Time): Db
    decreases |claims|
  {
    if claims == [] then db else
    var c := claims[0];
    var next := Processed(db, c.key, c.step, c.env, now);
    if OutcomeOf(db, c.step, c.env, now).PassAborted? then next else AfterClaims(next, claims[1..], now)
  }

  function SentRows(sends: seq<Send>): nat {
    if sends == [] then 0 else (if sends[|sends| - 1].status == Sent then 1 else 0) + SentRows(sends[..|sends| - 1])
  }

  /** How the rows of a pass went, up to the one that aborts it. */
  function Outcomes(db: Db, claims: seq<Claim>, now: Time): seq<Outcome>
    decreases |claims|
  {
    if claims == [] then [] else
    var c := claims[0];
    var outcome := OutcomeOf(db, c.step, c.env, now);
    [outcome] + if outcome.PassAborted? then []
    else Outcomes(Processed(db, c.key, c.step, c.env, now), claims[1..], now)
  }

  datatype PassSummary = PassSummary(
    attempted: nat, sent: nat, skipped: nat, suppressed: nat, failed: nat, exited: nat, completed: nat,
    quietHours: bool)

  const NOTHING := PassSummary(0, 0, 0, 0, 0, 0, 0, false)

  /** One row more attempted, and counted under its outcome if the summary has a count for it. */
  function Counted(summary: PassSummary, outcome: Outcome): PassSummary {
    var more := summary.(attempted := summary.attempted + 1);
    match outcome
    case Mailed(Sent) => more.(sent := more.sent + 1)
    case Mailed(Suppressed) => more.(suppressed := more.suppressed + 1)
    case Mailed(Failed) => more.(failed := more.failed + 1)
    case Skipped => more.(skipped := more.skipped + 1)
    case Left => more.(exited := more.exited + 1)
    case Completed => more.(completed := more.completed + 1)
    case _ => more
  }

  function Tally(outcomes: seq<Outcome>): PassSummary {
    if outcomes == [] then NOTHING else Counted(Tally(outcomes[..|outcomes| - 1]), outcomes[|outcomes| - 1])
  }

  /** The tables that the scheduler and the public routes update in place. */
  class EmailTables {
    var sends: seq<Send>
    var suppressed: set<nat>
    var enrollments: map<Key, Enrollment>

    constructor ()
      ensures View() == Db([], {}, map[])
    {
      sends, suppressed, enrollments := [], {}, map[];
    }

    function View(): Db
      reads this
    {
      Db(sends, suppressed, enrollments)
    }

    method Suppress(email: Address)
      modifies this`suppressed
      ensures suppressed == old(suppressed) + {email.lower}
    {
      suppressed := suppressed + {email.lower};
    }

    method RecordSend(recipient: Address, status: SendStatus, at: Time, key: Key, step: nat)
      modifies this`sends
      ensures sends == old(sends) + [Send(recipient, status, at, key, step)]
    {
      sends := sends + [Send(recipient, status, at, key, step)];
    }

    /** A call that returns an outcome writes exactly one row, with that outcome; one that raises, for a
        template that is not approved first of all, writes none. */
    method SendMarketingEmail(recipient: Address, approved: bool, mail: Mail, now: Time, key: Key, step: nat)
      returns (outcome: Option<SendStatus>)
      modifies this`sends
      ensures outcome == if approved then SendOutcome(old(View()), recipient, mail, now) else None
      ensures View() == if approved then AfterSend(old(View()), recipient, mail, now, key, step) else old(View())
      ensures match outcome
              case None => sends == old(sends)
              case Some(status) => sends == old(sends) + [Send(recipient, status, now, key, step)]
    {
      if !approved {
        return None;
      }
      if IsSuppressed(View(), recipient) {
        RecordSend(recipient, Suppressed, now, key, step);
        return Some(Suppressed);
      }
      if DailyCapReached(View(), recipient, now) {
        RecordSend(recipient, Suppressed, now, key, step);
        return Some(Suppressed);
      }
      match mail {
        case Unconfigured => return None;
        case Crashed => return None;
        case Refused =>
          RecordSend(recipient, Failed, now, key, step);
          return Some(Failed);
        case Accepted =>
          RecordSend(recipient, Sent, now, key, step);
          return Some(Sent);
      }
    }

    method Enroll(key: Key, now: Time)
      modifies this`enrollments
      ensures View() == Enrolled(old(View()), key, now)
      ensures enrollments == old(enrollments)[key := Enrollment(0, Active, now)]
    {
      enrollments := enrollments[key := Enrollment(0, Active, now)];
    }

    method ExitEnrollment(key: Key)
      modifies this`enrollments
      ensures View() == ExitedFrom(old(View()), key)
      ensures enrollments.Keys == old(enrollments).Keys
      ensures forall k | k in enrollments :: enrollments[k] ==
                if k == key && old(enrollments)[k].status == Active then old(enrollments)[k].(status := Exited)
                else old(enrollments)[k]
    {
      if key in enrollments && enrollments[key].status == Active {
        enrollments := enrollments[key := enrollments[key].(status := Exited)];
      }
    }

    method ExitAllEnrollments(subscriber: SubscriberId, except: set<SequenceKey>)
      modifies this`enrollments
      ensures View() == ExitedFromAll(old(View()), subscriber, except)
      ensures enrollments.Keys == old(enrollments).Keys
      ensures forall k | k in enrollments :: enrollments[k] ==
                if k.0 == subscriber && k.1 !in except && old(enrollments)[k].status == Active
                then old(enrollments)[k].(status := Exited) else old(enrollments)[k]
    {
      enrollments := map key | key in enrollments ::
        if key.0 == subscriber && enrollments[key].status.Active? && key.1 !in except
        then enrollments[key].(status := Exited) else enrollments[key];
    }

    method UpdateEnrollment(key: Key, e: Enrollment)
      modifies this`enrollments
      ensures View() == Updated(old(View()), key, e)
    {
      if key in enrollments {
        enrollments := enrollments[key := e];
      }
    }

    method ProcessOne(c: Claim, now: Time) returns (outcome: Outcome)
      modifies this`sends, this`enrollments
      ensures outcome == OutcomeOf(old(View()), c.step, c.env, now)
      ensures View() == Processed(old(View()), c.key, c.step, c.env, now)
      ensures sends == old(sends) +
              (if outcome.Mailed? then [Send(c.env.recipient, outcome.status, now, c.key, c.step + 1)] else [])
    {
      if !c.env.sequenceActive {
        return SequenceInactive;
      }
      if ExitDue(c.env) {
        ExitEnrollment(c.key);
        return Left;
      }
      var next := c.step + 1;
      if next !in c.env.templates {
        UpdateEnrollment(c.key, Enrollment(StepOf(View(), c.key), Done, NextAtOf(View(), c.key)));
        if c.key.1 == TRUST_DRIP {
          Enroll((c.key.0, NEWSLETTER), now);
        }
        return Completed;
      }
      if c.env.templates[next].skip {
        UpdateEnrollment(c.key, Enrollment(next, StatusOf(View(), c.key), now));
        return Skipped;
      }
      var sent := SendMarketingEmail(c.env.recipient, true, c.env.mail, now, c.key, next);
      if sent.None? {
        return if c.env.mail.Unconfigured? then PassAborted else RowRaised;
      }
      var delay := if next + 1 in c.env.templates then c.env.templates[next + 1].delayDays else 0;
      UpdateEnrollment(c.key, Enrollment(next, StatusOf(View(), c.key), c.env.wall + delay * DAY));
      return Mailed(sent.value);
    }

    method RunPendingSends(inWindow: bool, gotLock: bool, claims: seq<Claim>, now: Time) returns (summary: PassSummary)
      modifies this`sends, this`enrollments
      ensures !inWindow ==> View() == old(View()) && summary == NOTHING.(quietHours := true)
      ensures inWindow && !gotLock ==> View() == old(View()) && summary == NOTHING
      ensures inWindow && gotLock ==>
                View() == AfterClaims(old(View()), claims, now) && summary == Tally(Outcomes(old(View()), claims, now))
      ensures SentRows(sends) == SentRows(old(sends)) + summary.sent
    {
      summary := NOTHING;
      if !inWindow {
        return summary.(quietHours := true);
      }
      if !gotLock {
        return;
      }
      hide AfterClaims, Outcomes, Tally, Processed, OutcomeOf, SentRows, Counted;
      ghost var outcomes: seq<Outcome> := [];
      NoOutcomes(View(), now);
      assert claims[0..] == claims;
      for i := 0 to |claims|
        invariant summary == Tally(outcomes)
        invariant Outcomes(old(View()), claims, now) == outcomes + Outcomes(View(), claims[i..], now)
        invariant AfterClaims(old(View()), claims, now) == AfterClaims(View(), claims[i..], now)
        invariant SentRows(sends) == SentRows(old(sends)) + summary.sent
      {
        ghost var before, db := sends, View();
        var outcome := ProcessOne(claims[i], now);
        NextClaim(db, claims, i, now, outcomes);
        OneMoreOutcome(outcomes, outcome);
        outcomes := outcomes + [outcome];
        MoreSentRows(before, sends, outcome);
        SentCounted(summary, outcome);
        summary := Counted(summary, outcome);
        if outcome.PassAborted? {
          return;
        }
      }
      assert claims[|claims|..] == [] && outcomes + [] == outcomes;
      NoOutcomes(View(), now);
    }
  }

  lemma NoOutcomes(db: Db, now: Time)
    ensures Outcomes(db, [], now) == [] && AfterClaims(db, [], now) == db && Tally([]) == NOTHING
  {
  }

  lemma NextClaim(db: Db, claims: seq<Claim>, i: nat, now: Time, outcomes: seq<Outcome>)
    requires i < |claims|
    ensures var c := claims[i];
            var outcome, next := OutcomeOf(db, c.step, c.env, now), Processed(db, c.key, c.step, c.env, now);
            if outcome.PassAborted? then
              outcomes + Outcomes(db, claims[i..], now) == outcomes + [outcome]
                && AfterClaims(db, claims[i..], now) == next
            else
              && outcomes + Outcomes(db, claims[i..], now) ==
                 outcomes + [outcome] + Outcomes(next, claims[i + 1..], now)
              && AfterClaims(db, claims[i..], now) == AfterClaims(next, claims[i + 1..], now)
  {
    hide Processed, OutcomeOf;
    assert claims[i..][1..] == claims[i + 1..];
  }

  lemma SentCounted(summary: PassSummary, outcome: Outcome)
    ensures Counted(summary, outcome).sent == summary.sent + if outcome == Mailed(Sent) then 1 else 0
  {
  }

  lemma MoreSentRows(before: seq<Send>, sends: seq<Send>, outcome: Outcome)
    requires if outcome.Mailed? then
             |sends| == |before| + 1 && sends[..|before|] == before && sends[|before|].status == outcome.status
             else sends == before
    ensures SentRows(sends) == SentRows(before) + if outcome == Mailed(Sent) then 1 else 0
  {
  }

  lemma OneMoreOutcome(outcomes: seq<Outcome>, outcome: Outcome)
    ensures Tally(outcomes + [outcome]) == Counted(Tally(outcomes), outcome)
  {
    assert (outcomes + [outcome])[..|outcomes|] == outcomes;
  }

  // ---- what one call and one row come to ----

  /** A mail goes out exactly when the mailer takes it, its address is not suppressed, in any spelling, and
      no mail went to the recipient in the 24 hours up to now. */
  lemma SentExactlyWhen(db: Db, recipient: Address, mail: Mail, now: Time)
    ensures SendOutcome(db, recipient, mail, now) == Some(Sent) <==>
              && mail == Accepted && recipient.lower !in db.suppressed
              && forall i | 0 <= i < |db.sends| && db.sends[i].recipient == recipient && db.sends[i].status == Sent ::
                   now - db.sends[i].at > 24 * HOUR
  {
    if !DailyCapReached(db, recipient, now) {
      forall i | 0 <= i < |db.sends| && db.sends[i].recipient == recipient && db.sends[i].status == Sent
        ensures now - db.sends[i].at > 24 * HOUR
      {
        assert db.sends[i] in db.sends;
      }
    }
    if s :| s in db.sends && s.recipient == recipient && s.status == Sent && s.at >= now - CAP_INTERVAL {
      var i :| 0 <= i < |db.sends| && db.sends[i] == s;
      assert now - db.sends[i].at <= 24 * HOUR;
    }
  }

  /** What processing leaves of the enrolment, read off the sequence, the workspace and the templates: an
      inactive sequence leaves it; a workspace that is active or canceled ends it under the rule for that;
      no approved template behind its step completes it, the trust sequence enrolling its subscriber in the
      newsletter; a template whose condition holds moves it on, due now; a mail that is recorded moves it
      on, due after the delay of the step behind that, or none; and an error leaves it. */
  lemma RowAfterProcessing(db: Db, key: Key, step: nat, env: Env, now: Time)
    requires key in db.enrollments
    ensures var row, after := db.enrollments[key], Processed(db, key, step, env, now).enrollments;
            var leaves := (OnWorkspaceActive in env.exitRules && env.workspace == Some(WsActive))
                          || (OnWorkspaceCanceled in env.exitRules && env.workspace == Some(WsCanceled));
            && key in after
            && after[key] ==
               (if !env.sequenceActive then row
                else if leaves then (if row.status == Active then row.(status := Exited) else row)
                else if step + 1 !in env.templates then row.(status := Done)
                else if env.templates[step + 1].skip then Enrollment(step + 1, row.status, now)
                else if SendOutcome(db, env.recipient, env.mail, now).None? then row
                else
                  var days := if step + 2 in env.templates then env.templates[step + 2].delayDays else 0;
                  Enrollment(step + 1, row.status, env.wall + days * 24 * HOUR))
            && forall k | k != key :: k in after <==>
                 || k in db.enrollments
                 || (&& k == (key.0, NEWSLETTER) && key.1 == TRUST_DRIP
                     && env.sequenceActive && !leaves && step + 1 !in env.templates)
    ensures key.1 == TRUST_DRIP && env.sequenceActive && step + 1 !in env.templates
            && !(OnWorkspaceActive in env.exitRules && env.workspace == Some(WsActive))
            && !(OnWorkspaceCanceled in env.exitRules && env.workspace == Some(WsCanceled)) ==>
              var after := Processed(db, key, step, env, now).enrollments;
              (key.0, NEWSLETTER) in after && after[(key.0, NEWSLETTER)] == Enrollment(0, Active, now)
  {
  }

  function CountOf(outcomes: seq<Outcome>, outcome: Outcome): nat {
    if outcomes == [] then 0
    else CountOf(outcomes[..|outcomes| - 1], outcome) + if outcomes[|outcomes| - 1] == outcome then 1 else 0
  }

  /** The summary of a pass counts its rows, and those of each outcome that it names. */
  lemma {:induction false} TallyCounts(outcomes: seq<Outcome>)
    ensures Tally(outcomes) == PassSummary(
              |outcomes|, CountOf(outcomes, Mailed(Sent)), CountOf(outcomes, Skipped),
              CountOf(outcomes, Mailed(Suppressed)), CountOf(outcomes, Mailed(Failed)), CountOf(outcomes, Left),
              CountOf(outcomes, Completed), false)
  {
    if outcomes != [] {
      TallyCounts(outcomes[..|outcomes| - 1]);
    }
  }

  // ---- runs ----

  /** Whether a row gets as far as the send: past the rules, the skip, the suppression list and the cap. */
  predicate PassesGate(db: Db, step: nat, env: Env, now: Time) {
    && env.sequenceActive && !ExitDue(env)
    && step + 1 in env.templates && !env.templates[step + 1].skip
    && !IsSuppressed(db, env.recipient) && !DailyCapReached(db, env.recipient, now)
  }

  /** A row past the gate: its claim, and whether its mail has been handed over. */
  datatype Flight = Flight(key: Key, step: nat, env: Env, handed: bool)

  /** The tables; the rows claimed by the pass under way, with its NOW(), and the one it is sending; and
      for each enrolment the length of the ledger when it was last enrolled. */
  datatype State = State(db: Db, claimed: map<Key, nat>, now: Time, flight: Option<Flight>, since: map<Key, nat>)

  /** The steps of passes and of everything else, in any interleaving; the scheduler's lock lets at
      most one pass run, but others write to the tables while its mails are under way. A row is taken up
      to the gate, its mail handed over, and the outcome recorded with the enrolment's next step. A pass
      may start at any time of day and its clock need not move forward. A pass that is rolled back
      leaves nothing and is no event. */
  datatype Event =
    | StartPass(now: Time, rows: set<Key>)
    | Take(key: Key, env: Env)
    | Hand
    | Record
    | EnrollIn(key: Key, at: Time)
    | ExitFrom(key: Key)
    | ExitAll(subscriber: SubscriberId, except: set<SequenceKey>)
    | SuppressAddress(email: Address)
    | LiftSuppression(email: Address)

  predicate Enabled(s: State, e: Event) {
    match e
    case StartPass(now, rows) =>
      s.flight.None? && |rows| <= CLAIM_LIMIT && forall k | k in rows ::
        StatusOf(s.db, k).Active? && NextAtOf(s.db, k) <= now
    case Take(key, _) => s.flight.None? && key in s.claimed
    case Hand => s.flight.Some? && !s.flight.value.handed
    case Record => s.flight.Some? && s.flight.value.handed
    case _ => true
  }

  /** The enrolment that an event starts over, if any. */
  function Restarts(s: State, e: Event): Option<Key>
    requires Enabled(s, e)
  {
    match e
    case EnrollIn(key, _) => Some(key)
    case Take(key, env) =>
      if OutcomeOf(s.db, s.claimed[key], env, s.now).Completed? && key.1 == TRUST_DRIP then Some((key.0, NEWSLETTER))
      else None
    case _ => None
  }

  function Apply(s: State, e: Event): State
    requires Enabled(s, e)
  {
    match e
    case StartPass(now, rows) => s.(claimed := map k | k in rows :: StepOf(s.db, k), now := now)
    case Take(key, env) =>
      var step := s.claimed[key];
      if PassesGate(s.db, step, env, s.now) then
        s.(claimed := s.claimed - {key}, flight := Some(Flight(key, step, env, false)))
      else
        var next := Processed(s.db, key, step, env, s.now);
        s.(db := next, claimed := s.claimed - {key},
           since := if Restarts(s, e).Some? then s.since[Restarts(s, e).value := |next.sends|] else s.since)
    case Hand =>
      var mail := s.flight.value.env.mail;
      if mail.Unconfigured? then s.(flight := None, claimed := map[])
      else if mail.Crashed? then s.(flight := None)
      else s.(flight := Some(s.flight.value.(handed := true)))
    case Record =>
      var f := s.flight.value;
      var status := if f.env.mail.Accepted? then Sent else Failed;
      s.(db := Advanced(Noted(s.db, Send(f.env.recipient, status, s.now, f.key, f.step + 1)), f.key, f.step, f.env),
         flight := None)
    case EnrollIn(key, at) => s.(db := Enrolled(s.db, key, at), since := s.since[key := |s.db.sends|])
    case ExitFrom(key) => s.(db := ExitedFrom(s.db, key))
    case ExitAll(subscriber, except) => s.(db := ExitedFromAll(s.db, subscriber, except))
    case SuppressAddress(email) => s.(db := s.db.(suppressed := s.db.suppressed + {email.lower}))
    case LiftSuppression(email) => s.(db := s.db.(suppressed := s.db.suppressed - {email.lower}))
  }

  ghost predicate IsRun(s: State, events: seq<Event>)
    decreases |events|
  {
    events == [] || (Enabled(s, events[0]) && IsRun(Apply(s, events[0]), events[1..]))
  }

  ghost function After(s: State, events: seq<Event>): State
    requires IsRun(s, events)
    decreases |events|
  {
    if events == [] then s else After(Apply(s, events[0]), events[1..])
  }

  const EMPTY := State(Db([], {}, map[]), map[], 0, None, map[])

  /** A row that nothing comes in between is processed as the specification of one call says. */
  lemma UninterruptedIsProcessed(s: State, key: Key, env: Env)
    requires Enabled(s, Take(key, env))
    ensures var taken, processed := Apply(s, Take(key, env)), Processed(s.db, key, s.claimed[key], env, s.now);
            if taken.flight.None? then taken.db == processed
            else
              var handed := Apply(taken, Hand);
              if handed.flight.None? then handed.db == processed else Apply(handed, Record).db == processed
  {
  }

  // ---- the ledger ----

  ghost predicate SpacedOut(sends: seq<Send>) {
    forall i, j | 0 <= i < j < |sends| && sends[i].status == Sent && sends[j].status == Sent
                  && sends[i].recipient == sends[j].recipient ::
      sends[j].at - sends[i].at > CAP_INTERVAL
  }

  /** Nothing was sent to the recipient of a mail under way in the 24 hours before its pass. */
  ghost predicate LedgerOk(s: State) {
    && SpacedOut(s.db.sends)
    && (s.flight.Some? ==> forall i | 0 <= i < |s.db.sends| && s.db.sends[i].status == Sent
                                      && s.db.sends[i].recipient == s.flight.value.env.recipient ::
                             s.now - s.db.sends[i].at > CAP_INTERVAL)
  }

  lemma NoneRecently(db: Db, recipient: Address, now: Time)
    requires !DailyCapReached(db, recipient, now)
    ensures forall i | 0 <= i < |db.sends| && db.sends[i].status == Sent && db.sends[i].recipient == recipient ::
              now - db.sends[i].at > CAP_INTERVAL
  {
    forall i | 0 <= i < |db.sends| && db.sends[i].status == Sent && db.sends[i].recipient == recipient
      ensures now - db.sends[i].at > CAP_INTERVAL
    {
      assert db.sends[i] in db.sends;
    }
  }

  /** What a step does to the ledger. */
  lemma LedgerStep(s: State, e: Event)
    requires Enabled(s, e)
    ensures var n := Apply(s, e);
            || n.db.sends == s.db.sends
            || (e.Take? && |n.db.sends| == |s.db.sends| + 1 && n.db.sends[..|s.db.sends|] == s.db.sends
                && n.db.sends[|s.db.sends|].status == Suppressed)
            || (e.Record? && |n.db.sends| == |s.db.sends| + 1 && n.db.sends[..|s.db.sends|] == s.db.sends
                && n.db.sends[|s.db.sends|].recipient == s.flight.value.env.recipient
                   && n.db.sends[|s.db.sends|].at == s.now)
    ensures e.Record? ==> |Apply(s, e).db.sends| == |s.db.sends| + 1
  {
  }

  lemma FlightStep(s: State, e: Event)
    requires Enabled(s, e) && Apply(s, e).flight.Some?
    ensures var n := Apply(s, e);
            && n.now == s.now && n.db.sends == s.db.sends
            && (if e.Take? then
                  n.flight == Some(Flight(e.key, s.claimed[e.key], e.env, false))
                    && PassesGate(s.db, s.claimed[e.key], e.env, s.now)
                  && n.db == s.db
                else
                  s.flight.Some? && n.flight.value.env == s.flight.value.env
                  && n.flight.value.key == s.flight.value.key)
  {
  }

  lemma StepKeepsLedger(s: State, e: Event)
    requires Enabled(s, e) && LedgerOk(s)
    ensures LedgerOk(Apply(s, e))
  {
    hide Enabled, Apply;
    var n := Apply(s, e);
    LedgerStep(s, e);
    if n.flight.Some? {
      FlightStep(s, e);
      if e.Take? {
        NoneRecently(s.db, e.env.recipient, s.now);
      }
    }
    assert |n.db.sends| > |s.db.sends| ==>
      forall i | 0 <= i < |s.db.sends| :: n.db.sends[i] == n.db.sends[..|s.db.sends|][i];
    if e.Record? {
      RecordNeedsFlight(s);
    }
  }

  lemma RecordNeedsFlight(s: State)
    requires Enabled(s, Record)
    ensures s.flight.Some?
  {
  }

  lemma {:induction false} RunKeepsLedger(s: State, events: seq<Event>)
    requires IsRun(s, events) && LedgerOk(s)
    ensures LedgerOk(After(s, events))
    decreases |events|
  {
    if events != [] {
      hide Enabled, Apply, LedgerOk;
      StepKeepsLedger(s, events[0]);
      RunKeepsLedger(Apply(s, events[0]), events[1..]);
    }
  }

  /** In every reachable ledger two "sent" rows for one recipient are more than 24 hours apart. */
  lemma LedgerDiscipline(events: seq<Event>)
    requires IsRun(EMPTY, events)
    ensures var sends := After(EMPTY, events).db.sends;
            forall i, j | 0 <= i < j < |sends| && sends[i].status == sends[j].status == Sent
              && sends[i].recipient == sends[j].recipient ::
              sends[j].at - sends[i].at > 24 * HOUR
  {
    RunKeepsLedger(EMPTY, events);
  }

  // ---- suppression while a mail is under way ----

  /** Whether the last of these events that suppresses the address or lifts it, suppresses it. */
  predicate SuppressedLast(events: seq<Event>, lower: nat) {
    events != []
    && var last := events[|events| - 1];
       || (last.SuppressAddress? && last.email.lower == lower)
       || (!(last.LiftSuppression? && last.email.lower == lower) && SuppressedLast(events[..|events| - 1], lower))
  }

  lemma {:induction false} WithoutLast(s: State, events: seq<Event>)
    requires IsRun(s, events) && events != []
    ensures var front, last := events[..|events| - 1], events[|events| - 1];
            && IsRun(s, front) && Enabled(After(s, front), last) && After(s, events) == Apply(After(s, front), last)
    decreases |events|
  {
    hide Enabled, Apply;
    if |events| > 1 {
      WithoutLast(Apply(s, events[0]), events[1..]);
      assert events[1..][..|events| - 2] == events[..|events| - 1][1..];
    } else {
      assert events[..0] == [] && events[1..] == [];
    }
  }

  /** The run is a run up to a gate that this claim passes, and what has happened since. */
  ghost predicate GatePassed(events: seq<Event>, before: seq<Event>, key: Key, env: Env, between: seq<Event>) {
    && IsRun(EMPTY, before) && events == before + [Take(key, env)] + between
    && key in After(EMPTY, before).claimed
    && PassesGate(After(EMPTY, before).db, After(EMPTY, before).claimed[key], env, After(EMPTY, before).now)
  }

  lemma SuppressionStep(s: State, e: Event, lower: nat)
    requires Enabled(s, e)
    ensures lower in Apply(s, e).db.suppressed <==>
              || (e.SuppressAddress? && e.email.lower == lower)
              || (!(e.LiftSuppression? && e.email.lower == lower) && lower in s.db.suppressed)
  {
  }

  lemma {:induction false} MailHasPassedGate(events: seq<Event>) returns (before: seq<Event>, between: seq<Event>)
    requires IsRun(EMPTY, events) && After(EMPTY, events).flight.Some?
    ensures var s := After(EMPTY, events);
            var f := s.flight.value;
            && GatePassed(events, before, f.key, f.env, between)
            && (IsSuppressed(s.db, f.env.recipient) <==> SuppressedLast(between, f.env.recipient.lower))
    decreases |events|
  {
    hide Enabled, Apply, PassesGate;
    assert events != [];
    var front, last := events[..|events| - 1], events[|events| - 1];
    assert events == front + [last];
    WithoutLast(EMPTY, events);
    var s, n := After(EMPTY, front), After(EMPTY, events);
    FlightStep(s, last);
    if last.Take? {
      before, between := front, [];
      TakeNeedsClaim(s, last);
      GateIsOpen(s.db, n, last.env);
      assert events == before + [last] + between;
    } else {
      before, between := MailHasPassedGate(front);
      SuppressionStep(s, last, n.flight.value.env.recipient.lower);
      assert events == before + [Take(n.flight.value.key, n.flight.value.env)] + (between + [last]);
      between := between + [last];
      assert between[..|between| - 1] + [last] == between;
    }
  }

  lemma TakeNeedsClaim(s: State, e: Event)
    requires Enabled(s, e) && e.Take?
    ensures e.key in s.claimed
  {
  }

  lemma GateIsOpen(db: Db, n: State, env: Env)
    requires n.db == db && exists step, now :: PassesGate(db, step, env, now)
    ensures !IsSuppressed(n.db, env.recipient)
  {
  }

  /** Row i is written by a Record behind this part of the run. */
  ghost predicate WrittenAfter(events: seq<Event>, i: nat, upTo: seq<Event>, rest: seq<Event>) {
    && IsRun(EMPTY, upTo) && events == upTo + [Record] + rest
    && |After(EMPTY, upTo).db.sends| == i && After(EMPTY, upTo).flight.Some?
  }

  lemma {:induction false} SentRowIsWritten(events: seq<Event>, i: nat) returns (upTo: seq<Event>, rest: seq<Event>)
    requires IsRun(EMPTY, events) && i < |After(EMPTY, events).db.sends|
             && After(EMPTY, events).db.sends[i].status == Sent
    ensures WrittenAfter(events, i, upTo, rest)
    ensures After(EMPTY, events).db.sends[i].recipient == After(EMPTY, upTo).flight.value.env.recipient
    decreases |events|
  {
    hide Enabled, Apply;
    assert events != [];
    var front, last := events[..|events| - 1], events[|events| - 1];
    assert events == front + [last];
    WithoutLast(EMPTY, events);
    var s, n := After(EMPTY, front), After(EMPTY, events);
    LedgerStep(s, last);
    if i < |s.db.sends| {
      assert n.db.sends[i] == s.db.sends[i] by {
        assert n.db.sends != s.db.sends ==> n.db.sends[i] == n.db.sends[..|s.db.sends|][i];
      }
      upTo, rest := SentRowIsWritten(front, i);
      assert events == upTo + [Record] + (rest + [last]);
      rest := rest + [last];
    } else {
      assert last == Record;
      RecordNeedsFlight(s);
      upTo, rest := front, [];
      assert events == upTo + [Record] + rest;
    }
  }

  /** Over every run: each "sent" row was written for a claim that had passed the gate, its recipient then
      neither suppressed nor at the cap; and its recipient is suppressed when the row is written exactly
      when the last thing that happened to the address in between was a suppression. */
  lemma SentRowsPassedTheGate(events: seq<Event>, i: nat)
    returns (before: seq<Event>, key: Key, env: Env, between: seq<Event>, rest: seq<Event>)
    requires IsRun(EMPTY, events) && i < |After(EMPTY, events).db.sends|
             && After(EMPTY, events).db.sends[i].status == Sent
    ensures events == before + [Take(key, env)] + between + [Record] + rest
    ensures IsRun(EMPTY, before) && env.recipient == After(EMPTY, events).db.sends[i].recipient
    ensures var gate := After(EMPTY, before);
            key in gate.claimed && !IsSuppressed(gate.db, env.recipient)
              && !DailyCapReached(gate.db, env.recipient, gate.now)
    ensures var upTo := before + [Take(key, env)] + between;
            && IsRun(EMPTY, upTo) && |After(EMPTY, upTo).db.sends| == i
            && (IsSuppressed(After(EMPTY, upTo).db, env.recipient) <==> SuppressedLast(between, env.recipient.lower))
  {
    var upTo;
    upTo, rest := SentRowIsWritten(events, i);
    before, between := MailHasPassedGate(upTo);
    var f := After(EMPTY, upTo).flight.value;
    key, env := f.key, f.env;
    hide IsRun, After, SuppressedLast, DailyCapReached;
  }

  lemma {:induction false} OneMore(s: State, events: seq<Event>, e: Event)
    requires IsRun(s, events) && Enabled(After(s, events), e)
    ensures IsRun(s, events + [e]) && After(s, events + [e]) == Apply(After(s, events), e)
    decreases |events|
  {
    hide Enabled, Apply;
    if events != [] {
      OneMore(Apply(s, events[0]), events[1..], e);
      assert (events + [e])[1..] == events[1..] + [e];
    } else {
      assert [e][1..] == [];
    }
  }

  ghost predicate Reached(events: seq<Event>, s: State) {
    IsRun(EMPTY, events) && After(EMPTY, events) == s
  }

  lemma Then(events: seq<Event>, s: State, e: Event) returns (events': seq<Event>, s': State)
    requires Reached(events, s) && Enabled(s, e)
    ensures s' == Apply(s, e) && Reached(events', s')
  {
    OneMore(EMPTY, events, e);
    events', s' := events + [e], Apply(s, e);
  }

  /** Such a row: the recipient unsubscribes while the mail is under way. */
  lemma SentWhileSuppressed() returns (events: seq<Event>, s: State)
    ensures Reached(events, s) && |s.db.sends| == 1 && s.db.sends[0].status == Sent
            && IsSuppressed(s.db, s.db.sends[0].recipient)
  {
    var key, email := (0, NEWSLETTER), Address(0, 0);
    var env := Env(email, true, {}, None, map[1 := Template(0, false)], Accepted, 0);
    events, s := [], EMPTY;
    assert Reached(events, s);
    hide Reached;
    events, s := Then(events, s, EnrollIn(key, 0));
    events, s := Then(events, s, StartPass(0, {key}));
    events, s := Then(events, s, Take(key, env));
    events, s := Then(events, s, SuppressAddress(email));
    events, s := Then(events, s, Hand);
    events, s := Then(events, s, Record);
  }

  // ---- enrolments between two enrols ----

  /** Ledger rows of an enrolment since it was last enrolled have rising steps, none past the current
      one, and a claimed row was read at or past the current step. */
  ghost predicate Rising(s: State, k: Key) {
    && (k in s.db.enrollments ==> k in s.since && s.since[k] <= |s.db.sends|)
    && (k in s.claimed ==> k in s.db.enrollments && StepOf(s.db, k) <= s.claimed[k])
    && (s.flight.Some? && s.flight.value.key == k ==> k in s.db.enrollments && StepOf(s.db, k) <= s.flight.value.step)
    && (k in s.db.enrollments ==>
          && (forall i | s.since[k] <= i < |s.db.sends| && s.db.sends[i].enrollment == k ::
             s.db.sends[i].step <= StepOf(s.db, k))
          && forall i, j | s.since[k] <= i < j < |s.db.sends| && s.db.sends[i].enrollment == k
             && s.db.sends[j].enrollment == k ::
               s.db.sends[i].step < s.db.sends[j].step)
    && (k !in s.db.enrollments ==> forall i | 0 <= i < |s.db.sends| :: s.db.sends[i].enrollment != k)
  }

  /** The ledger gains a row of the step behind this one, and the enrolment moves there. */
  ghost predicate AddsRow(s: State, n: State, key: Key, step: nat) {
    && |n.db.sends| == |s.db.sends| + 1 && (forall i | 0 <= i < |s.db.sends| :: n.db.sends[i] == s.db.sends[i])
    && n.db.sends[|s.db.sends|].enrollment == key && n.db.sends[|s.db.sends|].step == step + 1
    && n.since == s.since && n.db.enrollments.Keys == s.db.enrollments.Keys
    && (forall k | k in s.db.enrollments && k != key :: n.db.enrollments[k] == s.db.enrollments[k])
    && key in s.db.enrollments && n.db.enrollments[key].step == step + 1
    && (forall k | k in n.claimed :: k in s.claimed && k != key && n.claimed[k] == s.claimed[k]) && n.flight.None?
  }

  lemma AddedRowKeepsRising(s: State, n: State, key: Key, step: nat, k: Key)
    requires AddsRow(s, n, key, step) && StepOf(s.db, key) <= step && Rising(s, k) && Rising(s, key)
    ensures Rising(n, k)
  {
  }

  lemma SuppressedRowIsAdded(s: State, e: Event)
    requires Enabled(s, e) && e.Take? && e.key in s.db.enrollments && !PassesGate(s.db, s.claimed[e.key], e.env, s.now)
    requires OutcomeOf(s.db, s.claimed[e.key], e.env, s.now).Mailed?
    ensures AddsRow(s, Apply(s, e), e.key, s.claimed[e.key])
  {
  }

  lemma MailedRowIsAdded(s: State)
    requires Enabled(s, Record) && s.flight.value.key in s.db.enrollments && s.flight.value.key !in s.claimed
    ensures AddsRow(s, Apply(s, Record), s.flight.value.key, s.flight.value.step)
  {
  }

  lemma TakeKeepsRising(s: State, e: Event, k: Key)
    requires Enabled(s, e) && e.Take? && Rising(s, k) && Rising(s, e.key)
    ensures Rising(Apply(s, e), k)
  {
    var step := s.claimed[e.key];
    if !PassesGate(s.db, step, e.env, s.now) && OutcomeOf(s.db, step, e.env, s.now).Mailed? {
      SuppressedRowIsAdded(s, e);
      AddedRowKeepsRising(s, Apply(s, e), e.key, step, k);
      hide *;
    } else {
      assert Apply(s, e).db.sends == s.db.sends;
    }
  }

  lemma StepKeepsRising(s: State, e: Event, k: Key)
    requires Enabled(s, e) && Rising(s, k)
    requires e.Take? ==> Rising(s, e.key)
    requires s.flight.Some? ==> Rising(s, s.flight.value.key) && s.flight.value.key !in s.claimed
    ensures Rising(Apply(s, e), k)
  {
    if e.Take? {
      TakeKeepsRising(s, e, k);
      hide *;
    } else if e.Record? {
      MailedRowIsAdded(s);
      AddedRowKeepsRising(s, Apply(s, e), s.flight.value.key, s.flight.value.step, k);
      hide *;
    }
  }

  /** The row being sent is no longer claimed. */
  predicate OneAtATime(s: State) {
    s.flight.Some? ==> s.flight.value.key !in s.claimed
  }

  lemma StepKeepsOneAtATime(s: State, e: Event)
    requires Enabled(s, e) && OneAtATime(s)
    ensures OneAtATime(Apply(s, e))
  {
  }

  /** Between two enrolments the step never falls, and only an enrolment makes a row active again. */
  lemma StepOnlyRises(s: State, e: Event, k: Key)
    requires Enabled(s, e) && Rising(s, k)
    requires Restarts(s, e) != Some(k)
    ensures StepOf(Apply(s, e).db, k) >= StepOf(s.db, k)
    ensures StatusOf(Apply(s, e).db, k).Active? ==> StatusOf(s.db, k).Active?
  {
  }

  lemma {:induction false} RunKeepsRising(s: State, events: seq<Event>)
    requires IsRun(s, events) && OneAtATime(s) && forall k :: Rising(s, k)
    ensures OneAtATime(After(s, events)) && forall k :: Rising(After(s, events), k)
    decreases |events|
  {
    if events != [] {
      hide Enabled, Apply, Rising, OneAtATime;
      StepKeepsAllRising(s, events[0]);
      RunKeepsRising(Apply(s, events[0]), events[1..]);
    }
  }

  lemma StepKeepsAllRising(s: State, e: Event)
    requires Enabled(s, e) && OneAtATime(s) && forall k :: Rising(s, k)
    ensures OneAtATime(Apply(s, e)) && forall k :: Rising(Apply(s, e), k)
  {
    StepKeepsOneAtATime(s, e);
    forall k ensures Rising(Apply(s, e), k) {
      StepKeepsRising(s, e, k);
    }
    hide *;
  }

  /** In every reachable state the mails of an enrolment, counted from when it was last enrolled, are
      of rising steps up to the current one: no step is attempted twice. */
  lemma EachStepOnce(events: seq<Event>, k: Key)
    requires IsRun(EMPTY, events) && k in After(EMPTY, events).db.enrollments
    ensures var s := After(EMPTY, events);
            && k in s.since && s.since[k] <= |s.db.sends|
            && (forall i | s.since[k] <= i < |s.db.sends| && s.db.sends[i].enrollment == k ::
               s.db.sends[i].step <= StepOf(s.db, k))
            && forall i, j | s.since[k] <= i < j < |s.db.sends|
               && s.db.sends[i].enrollment == s.db.sends[j].enrollment == k ::
                 s.db.sends[i].step < s.db.sends[j].step
  {
    RunKeepsRising(EMPTY, events);
    assert Rising(After(EMPTY, events), k);
  }

  /** No step of the run enrols k. */
  ghost predicate NoRestart(s: State, events: seq<Event>, k: Key)
    requires IsRun(s, events)
    decreases |events|
  {
    events == [] || (Restarts(s, events[0]) != Some(k) && NoRestart(Apply(s, events[0]), events[1..], k))
  }

  /** Between two enrolments, over any number of steps, the step never falls, and a row that is
      completed or exited stays so. */
  lemma {:induction false} OnlyEnrollingRestarts(s: State, events: seq<Event>, k: Key)
    requires IsRun(s, events) && NoRestart(s, events, k) && OneAtATime(s) && forall k :: Rising(s, k)
    ensures StepOf(After(s, events).db, k) >= StepOf(s.db, k)
    ensures StatusOf(After(s, events).db, k).Active? ==> StatusOf(s.db, k).Active?
    decreases |events|
  {
    if events != [] {
      hide Enabled, Apply, Rising, OneAtATime, StepOf, StatusOf;
      StepKeepsAllRising(s, events[0]);
      StepOnlyRises(s, events[0], k);
      OnlyEnrollingRestarts(Apply(s, events[0]), events[1..], k);
    }
  }

  /** The same from the start: whatever went before, and then no enrolment of k. */
  lemma OnlyEnrollingRestartsEver(before: seq<Event>, events: seq<Event>, k: Key)
    requires IsRun(EMPTY, before) && IsRun(After(EMPTY, before), events) && NoRestart(After(EMPTY, before), events, k)
    ensures var s, n := After(EMPTY, before), After(After(EMPTY, before), events);
            StepOf(n.db, k) >= StepOf(s.db, k) && (StatusOf(n.db, k).Active? ==> StatusOf(s.db, k).Active?)
  {
    RunKeepsRising(EMPTY, before);
    OnlyEnrollingRestarts(After(EMPTY, before), events, k);
  }

  // ---- an enrolment ends ----

  /** Every processing of k finds its sequence active and these approved steps, and does not raise. */
  ghost predicate Steady(s: State, events: seq<Event>, k: Key, approved: set<nat>)
    requires IsRun(s, events)
    decreases |events|
  {
    events == [] || (SteadyStep(s, events[0], k, approved) && Steady(Apply(s, events[0]), events[1..], k, approved))
  }

  predicate SteadyStep(s: State, e: Event, k: Key, approved: set<nat>)
    requires Enabled(s, e)
  {
    && (e.Take? && e.key == k ==> e.env.sequenceActive && e.env.templates.Keys == approved)
    && (e.Hand? && s.flight.value.key == k ==> s.flight.value.env.mail in {Accepted, Refused})
  }

  /** A processing of k is over: with a row that does not get as far as the send, or with the record. */
  predicate Processes(s: State, e: Event, k: Key)
    requires Enabled(s, e)
  {
    || (e.Take? && e.key == k && !PassesGate(s.db, s.claimed[k], e.env, s.now))
    || (e.Record? && s.flight.value.key == k)
  }

  ghost function Processings(s: State, events: seq<Event>, k: Key): nat
    requires IsRun(s, events)
    decreases |events|
  {
    if events == [] then 0
    else (if Processes(s, events[0], k) then 1 else 0) + Processings(Apply(s, events[0]), events[1..], k)
  }

  /** The claim of k, and the row of k being sent, were read at its current step. */
  predicate Fresh(s: State, k: Key, approved: set<nat>) {
    && k in s.db.enrollments
    && (k in s.claimed ==> s.claimed[k] == StepOf(s.db, k))
    && (s.flight.Some? && s.flight.value.key == k ==>
       s.flight.value.step == StepOf(s.db, k) && StepOf(s.db, k) + 1 in approved)
  }

  /** A processing either takes the enrolment one approved step on or out of the active state; any other
      step leaves its step as it is. */
  lemma ProcessingMoves(s: State, e: Event, k: Key, approved: set<nat>)
    requires Enabled(s, e) && OneAtATime(s) && Fresh(s, k, approved) && SteadyStep(s, e, k, approved)
             && Restarts(s, e) != Some(k)
    ensures var n := Apply(s, e);
            && Fresh(n, k, approved)
            && (StatusOf(n.db, k).Active? ==> StatusOf(s.db, k).Active?)
            && (if Processes(s, e, k) && StatusOf(n.db, k).Active? then
                  StepOf(s.db, k) + 1 in approved && StepOf(n.db, k) == StepOf(s.db, k) + 1
                else !Processes(s, e, k) ==> StepOf(n.db, k) == StepOf(s.db, k))
  {
  }

  lemma {:induction false} StaysInactive(s: State, events: seq<Event>, k: Key)
    requires IsRun(s, events) && NoRestart(s, events, k) && !StatusOf(s.db, k).Active?
    ensures !StatusOf(After(s, events).db, k).Active?
    decreases |events|
  {
    if events != [] {
      hide StatusOf, Enabled, Apply;
      NothingReactivates(s, events[0], k);
      StaysInactive(Apply(s, events[0]), events[1..], k);
    }
  }

  lemma NothingReactivates(s: State, e: Event, k: Key)
    requires Enabled(s, e) && Restarts(s, e) != Some(k) && !StatusOf(s.db, k).Active?
    ensures !StatusOf(Apply(s, e).db, k).Active?
  {
  }

  /** If n steps after the current one are approved and the next is not, n + 1 processings take the
      enrolment out of the active state. */
  lemma {:induction false} EnrolmentEnds(s: State, events: seq<Event>, k: Key, approved: set<nat>, n: nat)
    requires IsRun(s, events) && NoRestart(s, events, k) && Steady(s, events, k, approved)
    requires OneAtATime(s) && Fresh(s, k, approved) && StepOf(s.db, k) + n + 1 !in approved
    requires Processings(s, events, k) > n
    ensures !StatusOf(After(s, events).db, k).Active?
    decreases |events|
  {
    hide Enabled, Apply, OneAtATime, Fresh, SteadyStep, Processes, StatusOf, StepOf;
    var e, next := events[0], Apply(s, events[0]);
    StepKeepsOneAtATime(s, e);
    ProcessingMoves(s, e, k, approved);
    if !StatusOf(next.db, k).Active? {
      StaysInactive(next, events[1..], k);
    } else if Processes(s, e, k) {
      EnrolmentEnds(next, events[1..], k, approved, n - 1);
    } else {
      EnrolmentEnds(next, events[1..], k, approved, n);
    }
  }
}

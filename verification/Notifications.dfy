/** Incident notifications: the fan-out of core/notifications.py, the retry passes and the quiet-hours
    digests of core/notification_retry.py. A notification is one incident on one channel. */
module Notifications {
  import opened Wrappers
  import opened RetryQueue

  // ---- quiet hours ----

  const DAY: int := 86_400_000_000

  datatype QuietHours = QuietHours(start: nat, end: nat)

  /** The local time of day is unknown when the time zone is; then nothing is quiet. */
  predicate InQuietHours(quiet: Option<QuietHours>, local: Option<nat>) {
    match (quiet, local)
    case (Some(QuietHours(start, end)), Some(t)) =>
      if start <= end then start <= t < end else t >= start || t < end
    case _ => false
  }

  /** The window test, wrapped around midnight or not, is the modular one. */
  lemma QuietWindowIsModular(start: nat, end: nat, t: nat)
    requires start < DAY && end < DAY && t < DAY
    ensures InQuietHours(Some(QuietHours(start, end)), Some(t)) <==> (t - start) % DAY < (end - start) % DAY
  {
    Wrap(t - start);
    Wrap(end - start);
  }

  lemma Wrap(d: int)
    requires -DAY < d < DAY
    ensures d % DAY == if d >= 0 then d else d + DAY
  {
  }

  // ---- the tables ----

  datatype Kind = Slack | PagerDuty | Email | NoSender(name: string)

  datatype Severity = Critical | High | Medium | Low | Unlisted(name: string)

  /** SEVERITY_SORT_RANK.get(s, missing) */
  function Rank(s: Severity, missing: int): int {
    match s case Critical => 0 case High => 1 case Medium => 2 case Low => 3 case Unlisted(_) => missing
  }

  datatype Channel = Channel(workspace: nat, kind: Kind, floor: Option<Severity>, quiet: Option<QuietHours>)

  datatype Held = Held(channel: Channel, digested: bool)

  /** What is committed: the retry queue, the suppressed notifications, and the deliveries made. */
  datatype Tables = Tables(queue: Table, held: map<Id, Held>, delivered: set<Id>)

  datatype Fate = Delivered | Retrying | GivenUp | AwaitingDigest | Digested | Unknown

  function FateOf(t: Tables, id: Id): Fate {
    if id in t.delivered then Delivered
    else if id in t.queue then (if t.queue[id].status.Pending? then Retrying else GivenUp)
    else if id in t.held then (if t.held[id].digested then Digested else AwaitingDigest)
    else Unknown
  }

  /** No notification is in two places. */
  predicate Disjoint(t: Tables) {
    t.queue.Keys !! t.held.Keys !! t.delivered
  }

  function Tracked(t: Tables): set<Id> {
    t.queue.Keys + t.held.Keys + t.delivered
  }

  // ---- one channel of the fan-out ----

  /** A notification about to be made: what the clocks show and how the send will go. */
  datatype Dispatch = Dispatch(id: Id, channel: Channel, local: Option<nat>, readable: bool, sent: bool, at: Time)

  predicate BelowFloor(channel: Channel, severity: Option<Severity>) {
    channel.floor.Some? && severity.Some? && Rank(severity.value, 99) > Rank(channel.floor.value, -1)
  }

  /** Below the floor, or a channel without a sender: nothing is due. */
  predicate Ignored(d: Dispatch, severity: Option<Severity>) {
    BelowFloor(d.channel, severity)
    || (!InQuietHours(d.channel.quiet, d.local) && d.readable && d.channel.kind.NoSender?)
  }

  function Dispatched(t: Tables, d: Dispatch, severity: Option<Severity>): Tables {
    if Ignored(d, severity) then t
    else if InQuietHours(d.channel.quiet, d.local) then t.(held := t.held[d.id := Held(d.channel, false)])
    else if d.readable && d.sent then t.(delivered := t.delivered + {d.id})
    else t.(queue := t.queue[d.id := NewRow(d.at)])
  }

  function DispatchedAll(t: Tables, ds: seq<Dispatch>, severity: Option<Severity>): Tables {
    if ds == [] then t else Dispatched(DispatchedAll(t, ds[..|ds| - 1], severity), ds[|ds| - 1], severity)
  }

  // ---- the digest of one channel ----

  /** A channel with quiet hours as the digest pass finds it, and whether its digest goes out. */
  datatype Visit = Visit(channel: Channel, local: Option<nat>, sent: bool)

  function Waiting(t: Tables, channel: Channel): set<Id> {
    set id | id in t.held && !t.held[id].digested
             && t.held[id].channel.workspace == channel.workspace && t.held[id].channel.kind == channel.kind
  }

  predicate DigestDue(t: Tables, v: Visit) {
    !InQuietHours(v.channel.quiet, v.local) && Waiting(t, v.channel) != {} && v.sent
  }

  function AfterVisit(t: Tables, v: Visit): Tables {
    if !DigestDue(t, v) then t else
    t.(held := map id | id in t.held ::
         if id in Waiting(t, v.channel) then t.held[id].(digested := true) else t.held[id])
  }

  datatype DigestSummary = DigestSummary(digestsSent: nat, incidentsDigested: nat)

  function AfterVisits(t: Tables, visits: seq<Visit>): Tables {
    if visits == [] then t else AfterVisit(AfterVisits(t, visits[..|visits| - 1]), visits[|visits| - 1])
  }

  /** How many of the visits send a digest. */
  function DigestsSent(t: Tables, visits: seq<Visit>): nat {
    if visits == [] then 0 else
    var before := visits[..|visits| - 1];
    DigestsSent(t, before) + if DigestDue(AfterVisits(t, before), visits[|visits| - 1]) then 1 else 0
  }

  function DigestsOf(t: Tables): set<Id> {
    set id | id in t.held && t.held[id].digested
  }

  lemma VisitDigests(t: Tables, v: Visit)
    ensures var t' := AfterVisit(t, v);
            |DigestsOf(t')| == |DigestsOf(t)| + if DigestDue(t, v) then |Waiting(t, v.channel)| else 0
  {
    if DigestDue(t, v) {
      assert DigestsOf(AfterVisit(t, v)) == DigestsOf(t) + Waiting(t, v.channel);
      assert DigestsOf(t) !! Waiting(t, v.channel);
    }
  }

  // ---- a retry pass, row by row ----

  /** The summary with one more attempt. */
  function Counted(s: Summary, ok: bool, status: Status): Summary {
    var more := s.(attempted := s.attempted + 1);
    if ok then more.(succeeded := s.succeeded + 1)
    else if status.Exhausted? then more.(exhausted := s.exhausted + 1)
    else more.(rescheduled := s.rescheduled + 1)
  }

  /** The outcomes of the first i rows of a batch. */
  function Settled(outcomes: map<Id, Outcome>, batch: seq<Id>, i: nat): map<Id, Outcome>
    requires i <= |batch|
  {
    map id | id in outcomes && id in batch[..i] :: outcomes[id]
  }

  // ---- the committed tables in place ----

  class Delivery {
    var queue: Table
    var held: map<Id, Held>
    var delivered: set<Id>

    constructor ()
      ensures View() == Tables(map[], map[], {})
    {
      queue, held, delivered := map[], map[], {};
    }

    function View(): Tables
      reads this
    {
      Tables(queue, held, delivered)
    }

    method EnqueueRetry(id: Id, at: Time)
      modifies this`queue
      ensures queue == old(queue)[id := NewRow(at)]
    {
      queue := queue[id := Row(Pending, 0, DEFAULT_MAX_ATTEMPTS, at + BACKOFF_MINUTES[0] * MINUTE)];
    }

    method SuppressForQuietHours(id: Id, channel: Channel)
      modifies this`held
      ensures held == old(held)[id := Held(channel, false)]
    {
      held := held[id := Held(channel, false)];
    }

    method NotifyIncidentChannels(ds: seq<Dispatch>, severity: Option<Severity>)
      modifies this
      ensures View() == DispatchedAll(old(View()), ds, severity)
    {
      for i := 0 to |ds|
        invariant View() == DispatchedAll(old(View()), ds[..i], severity)
      {
        var d := ds[i];
        assert ds[..i + 1][..i] == ds[..i];
        if d.channel.floor.Some? && severity.Some? {
          if Rank(severity.value, 99) > Rank(d.channel.floor.value, -1) {
            continue;
          }
        }
        if InQuietHours(d.channel.quiet, d.local) {
          SuppressForQuietHours(d.id, d.channel);
          continue;
        }
        if d.readable && d.channel.kind.NoSender? {
          continue;
        }
        if d.readable && d.sent {
          delivered := delivered + {d.id};
        } else {
          EnqueueRetry(d.id, d.at);
        }
      }
      assert ds[..|ds|] == ds;
    }

    /** What the pass does with one claimed row. */
    method SettleAttempt(id: Id, outcome: Outcome, before: Summary) returns (summary: Summary)
      requires id in queue && queue[id].status.Pending?
      modifies this`queue, this`delivered
      ensures queue == if outcome.ok then old(queue) - {id}
              else old(queue)[id := AfterFailure(old(queue)[id], outcome.at)]
      ensures delivered == old(delivered) + if outcome.ok then {id} else {}
      ensures summary == Counted(before, outcome.ok, AfterFailure(old(queue)[id], outcome.at).status)
    {
      summary := before.(attempted := before.attempted + 1);
      if outcome.ok {
        queue := queue - {id};
        delivered := delivered + {id};
        summary := summary.(succeeded := summary.succeeded + 1);
      } else {
        var row := queue[id];
        var attempts := row.attempts + 1;
        if attempts >= row.maxAttempts {
          queue := queue[id := row.(status := Exhausted, attempts := attempts)];
          summary := summary.(exhausted := summary.exhausted + 1);
        } else {
          var i := if attempts < |BACKOFF_MINUTES| - 1 then attempts else |BACKOFF_MINUTES| - 1;
          queue := queue[id := row.(attempts := attempts, nextAt := outcome.at + BACKOFF_MINUTES[i] * MINUTE)];
          summary := summary.(rescheduled := summary.rescheduled + 1);
        }
      }
    }

    method RunPendingRetries(ghost now: Time, batch: seq<Id>, outcomes: map<Id, Outcome>) returns (summary: Summary)
      requires IsClaim(queue, now, batch) && outcomes.Keys == Members(batch)
      modifies this`queue, this`delivered
      ensures queue == AfterPass(old(queue), outcomes)
      ensures delivered == old(delivered) + RetryQueue.Delivered(outcomes)
      ensures summary == SummaryOf(old(queue), outcomes)
    {
      hide AfterPass, SummaryOf, RetryQueue.Delivered, IsClaim, AfterFailure, Counted, Settled, Distinct, Members;
      ghost var rows := queue;
      ClaimedRows(rows, now, batch);
      SettledEnds(batch, outcomes);
      NothingDone(rows);
      summary := Summary(0, 0, 0, 0);
      for i := 0 to |batch|
        invariant queue == AfterPass(rows, Settled(outcomes, batch, i))
        invariant delivered == old(delivered) + RetryQueue.Delivered(Settled(outcomes, batch, i))
        invariant summary == SummaryOf(rows, Settled(outcomes, batch, i))
      {
        SettledGrows(batch, outcomes, i);
        MoreRows(rows, Settled(outcomes, batch, i), batch[i], outcomes[batch[i]]);
        OneMore(rows, Settled(outcomes, batch, i), batch[i], outcomes[batch[i]]);
        summary := SettleAttempt(batch[i], outcomes[batch[i]], summary);
      }
    }

    method RunQuietHoursDigests(visits: seq<Visit>) returns (summary: DigestSummary)
      modifies this`held
      ensures View() == AfterVisits(old(View()), visits)
      ensures |DigestsOf(View())| == |DigestsOf(old(View()))| + summary.incidentsDigested
      ensures summary.digestsSent == DigestsSent(old(View()), visits)
    {
      summary := DigestSummary(0, 0);
      for i := 0 to |visits|
        invariant View() == AfterVisits(old(View()), visits[..i])
        invariant |DigestsOf(View())| == |DigestsOf(old(View()))| + summary.incidentsDigested
        invariant summary.digestsSent == DigestsSent(old(View()), visits[..i])
      {
        var v := visits[i];
        assert visits[..i + 1][..i] == visits[..i];
        VisitDigests(View(), v);
        if InQuietHours(v.channel.quiet, v.local) {
          continue;
        }
        var pending := Waiting(View(), v.channel);
        if pending == {} {
          continue;
        }
        if v.sent {
          summary := DigestSummary(summary.digestsSent + 1, summary.incidentsDigested + |pending|);
          held := map id | id in held :: if id in pending then held[id].(digested := true) else held[id];
        }
      }
      assert visits[..|visits|] == visits;
    }
  }

  lemma SettledEnds(batch: seq<Id>, outcomes: map<Id, Outcome>)
    requires outcomes.Keys == Members(batch)
    ensures Settled(outcomes, batch, 0) == map[] && Settled(outcomes, batch, |batch|) == outcomes
  {
    assert batch[..|batch|] == batch;
    assert forall id :: id in outcomes.Keys <==> id in batch;
  }

  lemma SettledGrows(batch: seq<Id>, outcomes: map<Id, Outcome>, i: nat)
    requires Distinct(batch) && outcomes.Keys == Members(batch) && i < |batch|
    ensures batch[i] in outcomes && batch[i] !in Settled(outcomes, batch, i)
            && Settled(outcomes, batch, i).Keys <= Members(batch)
    ensures Settled(outcomes, batch, i + 1) == Settled(outcomes, batch, i)[batch[i] := outcomes[batch[i]]]
  {
    assert batch[i] in Members(batch);
    assert batch[..i + 1] == batch[..i] + [batch[i]];
  }

  /** The table and the summary grow with each attempt. */
  lemma OneMore(rows: Table, done: map<Id, Outcome>, id: Id, outcome: Outcome)
    requires done.Keys <= rows.Keys && id in rows && rows[id].status.Pending? && id !in done
    ensures var more, s := done[id := outcome], SummaryOf(rows, done);
            && SummaryOf(rows, more) == Counted(s, outcome.ok, AfterFailure(rows[id], outcome.at).status)
            && RetryQueue.Delivered(more) == RetryQueue.Delivered(done) + (if outcome.ok then {id} else {})
  {
    hide Failing;
    MoreFailing(rows, done, id, outcome, Pending);
    MoreFailing(rows, done, id, outcome, Exhausted);
    MoreDelivered(done, id, outcome);
    assert |done[id := outcome]| == |done| + 1;
  }

  lemma MoreDelivered(done: map<Id, Outcome>, id: Id, outcome: Outcome)
    requires id !in done
    ensures RetryQueue.Delivered(done[id := outcome]) == RetryQueue.Delivered(done) + (if outcome.ok then {id} else {})
    ensures id !in RetryQueue.Delivered(done)
  {
  }

  lemma ClaimedRows(rows: Table, now: Time, batch: seq<Id>)
    requires IsClaim(rows, now, batch)
    ensures Distinct(batch) && Members(batch) <= rows.Keys && forall id | id in batch :: rows[id].status.Pending?
  {
    assert forall id | id in batch :: IsDue(rows, id, now);
  }

  lemma NothingDone(rows: Table)
    ensures AfterPass(rows, map[]) == rows && SummaryOf(rows, map[]) == Summary(0, 0, 0, 0)
    ensures RetryQueue.Delivered(map[]) == {}
  {
  }

  lemma MoreFailing(rows: Table, done: map<Id, Outcome>, id: Id, outcome: Outcome, status: Status)
    requires id !in done
    ensures |Failing(rows, done[id := outcome], status)| == |Failing(rows, done, status)|
              + if Fails(rows, id, outcome, status) then 1 else 0
  {
    hide Fails;
    var a, b := Failing(rows, done, status), Failing(rows, done[id := outcome], status);
    assert b == if Fails(rows, id, outcome, status) then a + {id} else a;
    assert id !in a;
  }

  lemma MoreRows(rows: Table, done: map<Id, Outcome>, id: Id, outcome: Outcome)
    requires done.Keys <= rows.Keys && id in rows && id !in done
    ensures var old', more' := AfterPass(rows, done), AfterPass(rows, done[id := outcome]);
            && id in old' && old'[id] == rows[id]
            && more' == if outcome.ok then old' - {id} else old'[id := AfterFailure(rows[id], outcome.at)]
  {
  }

  // ---- no notification is lost ----

  /** A committed transaction on the tables. */
  datatype Change =
    | Notify(ds: seq<Dispatch>, severity: Option<Severity>)
    | Retry(now: Time, batch: seq<Id>, outcomes: map<Id, Outcome>)
    | Digest(visits: seq<Visit>)

  /** New notifications have new ids; a retry pass handles what it may claim. */
  ghost predicate Allowed(t: Tables, c: Change) {
    match c
    case Notify(ds, _) =>
      && (forall i | 0 <= i < |ds| :: ds[i].id !in Tracked(t))
      && (forall i, j | 0 <= i < j < |ds| :: ds[i].id != ds[j].id)
    case Retry(now, batch, outcomes) => IsClaim(t.queue, now, batch) && outcomes.Keys == Members(batch)
    case Digest(_) => true
  }

  function Changed(t: Tables, c: Change): Tables {
    match c
    case Notify(ds, severity) => DispatchedAll(t, ds, severity)
    case Retry(_, _, outcomes) =>
      t.(queue := AfterPass(t.queue, outcomes), delivered := t.delivered + RetryQueue.Delivered(outcomes))
    case Digest(visits) => AfterVisits(t, visits)
  }

  /** The notifications that a change owes. */
  function Owed(c: Change): set<Id> {
    match c
    case Notify(ds, severity) => set i | 0 <= i < |ds| && !Ignored(ds[i], severity) :: ds[i].id
    case _ => {}
  }

  /** How a notification may move on. */
  predicate MayBecome(a: Fate, b: Fate) {
    || a == b
    || (a == Retrying && (b == Delivered || b == GivenUp))
    || (a == AwaitingDigest && b == Digested)
  }

  lemma DispatchTracks(t: Tables, d: Dispatch, severity: Option<Severity>)
    requires Disjoint(t) && d.id !in Tracked(t)
    ensures var t' := Dispatched(t, d, severity);
            && Disjoint(t')
            && Tracked(t') == Tracked(t) + (if Ignored(d, severity) then {} else {d.id})
            && forall id | id in Tracked(t) :: FateOf(t', id) == FateOf(t, id)
  {
  }

  lemma OwedGrows(ds: seq<Dispatch>, severity: Option<Severity>)
    requires ds != []
    ensures var d := ds[|ds| - 1];
            Owed(Notify(ds, severity)) ==
              Owed(Notify(ds[..|ds| - 1], severity)) + (if Ignored(d, severity) then {} else {d.id})
  {
    hide Ignored;
    var rest := ds[..|ds| - 1];
    assert forall i | 0 <= i < |rest| :: rest[i] == ds[i];
  }

  lemma {:induction false} DispatchedTracks(t: Tables, ds: seq<Dispatch>, severity: Option<Severity>)
    requires Disjoint(t) && Allowed(t, Notify(ds, severity))
    ensures var t' := DispatchedAll(t, ds, severity);
            && Disjoint(t')
            && Tracked(t') == Tracked(t) + Owed(Notify(ds, severity))
            && forall id | id in Tracked(t) :: FateOf(t', id) == FateOf(t, id)
  {
    hide Dispatched, FateOf, Ignored, Disjoint, Tracked;
    if ds != [] {
      var rest, d := ds[..|ds| - 1], ds[|ds| - 1];
      DispatchedTracks(t, rest, severity);
      OwedGrows(ds, severity);
      assert d.id !in Owed(Notify(rest, severity)) by {
        assert forall i | 0 <= i < |rest| :: rest[i] == ds[i] && ds[i].id != d.id;
      }
      DispatchTracks(DispatchedAll(t, rest, severity), d, severity);
    }
  }

  lemma {:induction false} VisitsTrack(t: Tables, visits: seq<Visit>)
    requires Disjoint(t)
    ensures var t' := AfterVisits(t, visits);
            && Disjoint(t') && Tracked(t') == Tracked(t)
            && forall id | id in Tracked(t) :: MayBecome(FateOf(t, id), FateOf(t', id))
  {
    if visits != [] {
      VisitsTrack(t, visits[..|visits| - 1]);
      var u := AfterVisits(t, visits[..|visits| - 1]);
      assert AfterVisit(u, visits[|visits| - 1]).held.Keys == u.held.Keys;
    }
  }

  lemma ChangeTracks(t: Tables, c: Change)
    requires Disjoint(t) && Allowed(t, c)
    ensures var t' := Changed(t, c);
            && Disjoint(t') && Tracked(t') == Tracked(t) + Owed(c)
            && forall id | id in Tracked(t) :: MayBecome(FateOf(t, id), FateOf(t', id))
  {
    match c {
      case Notify(ds, severity) => DispatchedTracks(t, ds, severity);
      case Digest(visits) => VisitsTrack(t, visits);
      case Retry(now, batch, outcomes) =>
        forall id | id in outcomes
          ensures IsDue(t.queue, id, now)
        {
        }
        var t' := Changed(t, c);
        assert t'.queue.Keys == t.queue.Keys - RetryQueue.Delivered(outcomes);
    }
  }

  ghost predicate AllAllowed(t: Tables, cs: seq<Change>)
    decreases |cs|
  {
    cs == [] || (Allowed(t, cs[0]) && AllAllowed(Changed(t, cs[0]), cs[1..]))
  }

  ghost function AllChanged(t: Tables, cs: seq<Change>): Tables
    decreases |cs|
  {
    if cs == [] then t else AllChanged(Changed(t, cs[0]), cs[1..])
  }

  function AllOwed(cs: seq<Change>): set<Id> {
    if cs == [] then {} else Owed(cs[0]) + AllOwed(cs[1..])
  }

  lemma {:induction false} ChangesTrack(t: Tables, cs: seq<Change>)
    requires Disjoint(t) && AllAllowed(t, cs)
    ensures var t' := AllChanged(t, cs);
            && Disjoint(t') && Tracked(t') == Tracked(t) + AllOwed(cs)
            && forall id | id in Tracked(t) :: MayBecome(FateOf(t, id), FateOf(t', id))
    decreases |cs|
  {
    if cs != [] {
      hide Allowed, Changed, Owed, Disjoint, Tracked, FateOf;
      ChangeTracks(t, cs[0]);
      ChangesTrack(Changed(t, cs[0]), cs[1..]);
    }
  }

  /** In every committed state each notification owed so far is in exactly one of five places, none
      other is, and whatever happens next a notification only moves from retrying to delivered or
      given up, or from awaiting its digest to digested. */
  lemma NoNotificationIsLost(before: seq<Change>, next: seq<Change>)
    requires AllAllowed(Tables(map[], map[], {}), before)
    requires AllAllowed(AllChanged(Tables(map[], map[], {}), before), next)
    ensures var t := AllChanged(Tables(map[], map[], {}), before);
            && Disjoint(t)
            && (forall id :: id in AllOwed(before) <==> FateOf(t, id) != Unknown)
            && forall id | id in AllOwed(before) :: MayBecome(FateOf(t, id), FateOf(AllChanged(t, next), id))
  {
    ChangesTrack(Tables(map[], map[], {}), before);
    ChangesTrack(AllChanged(Tables(map[], map[], {}), before), next);
  }

  /** A Slack, PagerDuty or e-mail notification at or above the floor is always owed. */
  lemma OwedAtOrAboveFloor(ds: seq<Dispatch>, severity: Option<Severity>, i: nat)
    requires i < |ds| && !ds[i].channel.kind.NoSender?
    requires severity.None? || ds[i].channel.floor.None?
             || Rank(severity.value, 99) <= Rank(ds[i].channel.floor.value, -1)
    ensures ds[i].id in Owed(Notify(ds, severity))
  {
    assert !Ignored(ds[i], severity);
  }

  // ---- which fate ----

  /** A dispatch that goes out at once: at or above the floor, awake, readable, with a sender, and sent. */
  predicate GoesOut(d: Dispatch, severity: Option<Severity>) {
    && !BelowFloor(d.channel, severity) && !InQuietHours(d.channel.quiet, d.local)
    && d.readable && !d.channel.kind.NoSender? && d.sent
  }

  lemma FateOfLast(t: Tables, d: Dispatch, severity: Option<Severity>)
    requires d.id !in Tracked(t)
    ensures var fate, owed := FateOf(Dispatched(t, d, severity), d.id), !Ignored(d, severity);
            && (fate == Unknown <==> !owed)
            && (fate == AwaitingDigest <==> owed && InQuietHours(d.channel.quiet, d.local))
            && (fate == Delivered <==> owed && !InQuietHours(d.channel.quiet, d.local) && d.readable && d.sent)
            && (fate == Retrying <==> owed && !InQuietHours(d.channel.quiet, d.local) && !(d.readable && d.sent))
  {
  }

  lemma OthersFate(t: Tables, d: Dispatch, severity: Option<Severity>, id: Id)
    requires id != d.id
    ensures FateOf(Dispatched(t, d, severity), id) == FateOf(t, id)
  {
  }

  /** After a fan-out a notification is where its channel and its send put it: awaiting the digest when it
      is owed in quiet hours, delivered when it is owed and the send succeeds, retrying when it is owed and
      the configuration cannot be read or the send fails, nowhere when it is not owed. */
  lemma {:induction false} FatesAfterFanOut(t: Tables, ds: seq<Dispatch>, severity: Option<Severity>, i: nat)
    requires Allowed(t, Notify(ds, severity)) && i < |ds|
    ensures var d := ds[i];
            var fate, owed := FateOf(DispatchedAll(t, ds, severity), d.id), !Ignored(d, severity);
            && (fate == Unknown <==> !owed)
            && (fate == AwaitingDigest <==> owed && InQuietHours(d.channel.quiet, d.local))
            && (fate == Delivered <==> owed && !InQuietHours(d.channel.quiet, d.local) && d.readable && d.sent)
            && (fate == Retrying <==> owed && !InQuietHours(d.channel.quiet, d.local) && !(d.readable && d.sent))
  {
    hide Dispatched, FateOf, Ignored, Tracked, InQuietHours;
    var rest, last := ds[..|ds| - 1], ds[|ds| - 1];
    var u := DispatchedAll(t, rest, severity);
    if i == |ds| - 1 {
      NotTrackedYet(t, rest, severity, last.id);
      FateOfLast(u, last, severity);
    } else {
      FatesAfterFanOut(t, rest, severity, i);
      OthersFate(u, last, severity, ds[i].id);
    }
  }

  lemma {:induction false} NotTrackedYet(t: Tables, ds: seq<Dispatch>, severity: Option<Severity>, id: Id)
    requires id !in Tracked(t) && forall i | 0 <= i < |ds| :: ds[i].id != id
    ensures id !in Tracked(DispatchedAll(t, ds, severity))
  {
    if ds != [] {
      NotTrackedYet(t, ds[..|ds| - 1], severity, id);
    }
  }

  /** The change sends this notification: at once, or as a retry. */
  predicate Sends(c: Change, id: Id) {
    match c
    case Notify(ds, severity) => exists i :: 0 <= i < |ds| && ds[i].id == id && GoesOut(ds[i], severity)
    case Retry(_, _, outcomes) => id in outcomes && outcomes[id].ok
    case Digest(_) => false
  }

  lemma {:induction false} FanOutDelivers(t: Tables, ds: seq<Dispatch>, severity: Option<Severity>, id: Id)
    ensures id in DispatchedAll(t, ds, severity).delivered <==> id in t.delivered || Sends(Notify(ds, severity), id)
  {
    if ds != [] {
      var rest, last := ds[..|ds| - 1], ds[|ds| - 1];
      FanOutDelivers(t, rest, severity, id);
      assert forall i | 0 <= i < |rest| :: rest[i] == ds[i];
      if i :| 0 <= i < |rest| && rest[i].id == id && GoesOut(rest[i], severity) {
        assert ds[i].id == id;
      }
    }
  }

  lemma {:induction false} DigestsDeliverNothing(t: Tables, visits: seq<Visit>)
    ensures AfterVisits(t, visits).delivered == t.delivered
  {
    if visits != [] {
      DigestsDeliverNothing(t, visits[..|visits| - 1]);
    }
  }

  lemma ChangeDelivers(t: Tables, c: Change, id: Id)
    ensures id in Changed(t, c).delivered <==> id in t.delivered || Sends(c, id)
  {
    match c {
      case Notify(ds, severity) => FanOutDelivers(t, ds, severity, id);
      case Digest(visits) => DigestsDeliverNothing(t, visits);
      case Retry(_, _, _) =>
    }
  }

  lemma {:induction false} ChangesDeliver(t: Tables, cs: seq<Change>, id: Id)
    ensures id in AllChanged(t, cs).delivered <==> id in t.delivered || exists k :: 0 <= k < |cs| && Sends(cs[k], id)
    decreases |cs|
  {
    if cs != [] {
      hide Changed, Sends;
      ChangeDelivers(t, cs[0], id);
      ChangesDeliver(Changed(t, cs[0]), cs[1..], id);
      if k :| 0 <= k < |cs[1..]| && Sends(cs[1..][k], id) {
        assert Sends(cs[k + 1], id);
      }
      if k :| 0 <= k < |cs| && Sends(cs[k], id) {
        assert k > 0 ==> cs[1..][k - 1] == cs[k];
      }
    }
  }

  /** Over every run: a notification is delivered exactly when some send of it succeeded, the first at a
      readable channel at or above its floor and out of its quiet hours, or a retry. */
  lemma DeliveredExactlyWhenSent(cs: seq<Change>, id: Id)
    ensures id in AllChanged(Tables(map[], map[], {}), cs).delivered <==> exists k :: 0 <= k < |cs| && Sends(cs[k], id)
  {
    hide Sends;
    ChangesDeliver(Tables(map[], map[], {}), cs, id);
  }

  /** A visit digests exactly the notifications held for its workspace and kind, out of its quiet hours
      and if its mail goes out; whatever was digested stays so. */
  lemma VisitDigestsExactly(t: Tables, v: Visit, id: Id)
    requires id in t.held
    ensures var after := AfterVisit(t, v).held;
            && id in after && after[id].channel == t.held[id].channel
            && (after[id].digested <==>
                  || t.held[id].digested
                  || (&& v.sent && !InQuietHours(v.channel.quiet, v.local)
                      && t.held[id].channel.workspace == v.channel.workspace
                      && t.held[id].channel.kind == v.channel.kind))
  {
    if t.held[id].channel.workspace == v.channel.workspace && t.held[id].channel.kind == v.channel.kind {
      assert !t.held[id].digested ==> id in Waiting(t, v.channel);
    }
  }

  /** The ranks order the severities, and a floor keeps off exactly what ranks behind it. */
  lemma FloorKeepsOff(channel: Channel, severity: Severity)
    requires !severity.Unlisted? && channel.floor.Some? && !channel.floor.value.Unlisted?
    ensures BelowFloor(channel, Some(severity)) <==>
              match channel.floor.value
              case Critical => severity != Critical
              case High => severity == Medium || severity == Low
              case Medium => severity == Low
              case _ => false
  {
  }
}

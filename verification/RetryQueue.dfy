/** The retry queue of core/notification_retry.py over any run of enqueues and passes. */
module RetryQueue {
  type Id = nat
  /** Microseconds on the one clock that the processes and the database share. */
  type Time = int

  const MINUTE: nat := 60_000_000
  const BACKOFF_MINUTES: seq<nat> := [1, 5, 15, 60, 240]
  const CLAIM_LIMIT: nat := 100
  const DEFAULT_MAX_ATTEMPTS: nat := 5

  datatype Status = Pending | Exhausted

  datatype Row = Row(status: Status, attempts: nat, maxAttempts: nat, nextAt: Time)

  /** How a claimed row's attempt went, and when. */
  datatype Outcome = Outcome(ok: bool, at: Time)

  function Backoff(i: nat): (d: Time)
    ensures d >= MINUTE
  {
    BACKOFF_MINUTES[if i < |BACKOFF_MINUTES| then i else |BACKOFF_MINUTES| - 1] * MINUTE
  }

  /** The wait between enqueueing and the k-th attempt, at least. */
  function BackoffSum(k: nat): Time {
    if k == 0 then 0 else BackoffSum(k - 1) + Backoff(k - 1)
  }

  function NewRow(at: Time): Row {
    Row(Pending, 0, DEFAULT_MAX_ATTEMPTS, at + Backoff(0))
  }

  function AfterFailure(row: Row, at: Time): Row {
    var n := row.attempts + 1;
    if n >= row.maxAttempts then row.(status := Exhausted, attempts := n)
    else row.(attempts := n, nextAt := at + Backoff(n))
  }

  type Table = map<Id, Row>

  predicate IsDue(rows: Table, id: Id, now: Time) {
    id in rows && rows[id].status.Pending? && rows[id].nextAt <= now
  }

  predicate Distinct(ids: seq<Id>) {
    forall i, j | 0 <= i < j < |ids| :: ids[i] != ids[j]
  }

  /** The sort key. */
  function DueAt(rows: Table, id: Id): Time {
    if id in rows then rows[id].nextAt else 0
  }

  /** What the query may return: due rows by next_attempt_at, at most 100, ties in any order. */
  ghost predicate IsClaim(rows: Table, now: Time, batch: seq<Id>) {
    && Distinct(batch)
    && |batch| <= CLAIM_LIMIT
    && (forall id | id in batch :: IsDue(rows, id, now))
    && (forall i, j | 0 <= i < j < |batch| :: DueAt(rows, batch[i]) <= DueAt(rows, batch[j]))
    && (forall id | IsDue(rows, id, now) && id !in batch ::
          |batch| == CLAIM_LIMIT && forall b | b in batch :: DueAt(rows, b) <= DueAt(rows, id))
  }

  /** The table after the outcomes: delivered rows are deleted, the others count a failure. */
  function AfterPass(rows: Table, outcomes: map<Id, Outcome>): Table {
    map id | id in rows && !(id in outcomes && outcomes[id].ok) ::
      if id in outcomes then AfterFailure(rows[id], outcomes[id].at) else rows[id]
  }

  datatype Summary = Summary(attempted: nat, succeeded: nat, rescheduled: nat, exhausted: nat)

  function Delivered(outcomes: map<Id, Outcome>): set<Id> {
    set id | id in outcomes && outcomes[id].ok
  }

  /** Whether an attempt failed and left its row with this status. */
  predicate Fails(rows: Table, id: Id, outcome: Outcome, status: Status) {
    id in rows && !outcome.ok && AfterFailure(rows[id], outcome.at).status == status
  }

  function Failing(rows: Table, outcomes: map<Id, Outcome>, status: Status): set<Id> {
    set id | id in outcomes && Fails(rows, id, outcomes[id], status)
  }

  function SummaryOf(rows: Table, outcomes: map<Id, Outcome>): Summary {
    Summary(|outcomes|, |Delivered(outcomes)|, |Failing(rows, outcomes, Pending)|, |Failing(rows, outcomes, Exhausted)|)
  }

  function WithStatus(rows: Table, status: Status): set<Id> {
    set id | id in rows && rows[id].status == status
  }

  function StatusCount(rows: Table, status: Status): nat {
    |WithStatus(rows, status)|
  }

  /** Every attempt is accounted for once, in the summary and in the table. */
  lemma PassAddsUp(rows: Table, outcomes: map<Id, Outcome>)
    requires forall id | id in outcomes :: id in rows && rows[id].status.Pending?
    ensures var s, rows' := SummaryOf(rows, outcomes), AfterPass(rows, outcomes);
            && s.attempted == s.succeeded + s.rescheduled + s.exhausted
            && StatusCount(rows', Pending) == StatusCount(rows, Pending) - s.succeeded - s.exhausted
            && StatusCount(rows', Exhausted) == StatusCount(rows, Exhausted) + s.exhausted
  {
    var done, again, over := Delivered(outcomes), Failing(rows, outcomes, Pending), Failing(rows, outcomes, Exhausted);
    Partition(outcomes.Keys, done, again, over);
    StatusMoves(rows, outcomes);
    var pending := WithStatus(rows, Pending);
    assert |pending - (done + over)| == |pending| - |done + over|;
  }

  /** Which rows change status. */
  lemma StatusMoves(rows: Table, outcomes: map<Id, Outcome>)
    requires forall id | id in outcomes :: id in rows && rows[id].status.Pending?
    ensures var done, over := Delivered(outcomes), Failing(rows, outcomes, Exhausted);
            && WithStatus(AfterPass(rows, outcomes), Pending) == WithStatus(rows, Pending) - (done + over)
            && WithStatus(AfterPass(rows, outcomes), Exhausted) == WithStatus(rows, Exhausted) + over
            && done + over <= WithStatus(rows, Pending) && over !! WithStatus(rows, Exhausted)
  {
  }

  lemma Partition(all: set<Id>, a: set<Id>, b: set<Id>, c: set<Id>)
    requires a !! b !! c && forall x :: x in all <==> x in a || x in b || x in c
    ensures |all| == |a| + |b| + |c| && |a + c| == |a| + |c|
  {
    assert all == a + b + c;
  }

  // ---- runs ----

  /** One recorded attempt. */
  datatype Attempt = Attempt(id: Id, at: Time, ok: bool)

  /** The table, when each row was enqueued, the clock, and every recorded attempt. */
  datatype State = State(rows: Table, enqueuedAt: map<Id, Time>, clock: Time, log: seq<Attempt>)

  /** Enqueues and committed passes. A pass that does not get the lock, or is rolled back, changes
      nothing and is no event. */
  datatype Event = Enqueue(id: Id, at: Time) | Pass(now: Time, batch: seq<Id>, outcomes: map<Id, Outcome>)

  function TimeOf(e: Event): Time {
    match e case Enqueue(_, at) => at case Pass(now, _, _) => now
  }

  ghost predicate Enabled(s: State, e: Event) {
    && TimeOf(e) >= s.clock
    && match e
       case Enqueue(id, _) => id !in s.enqueuedAt
       case Pass(now, batch, outcomes) =>
         && IsClaim(s.rows, now, batch)
         && (forall id :: id in outcomes <==> id in batch)
         && forall id | id in batch :: outcomes[id].at >= now
  }

  function Attempts(batch: seq<Id>, outcomes: map<Id, Outcome>): seq<Attempt>
    requires forall id | id in batch :: id in outcomes
  {
    seq(|batch|, i requires 0 <= i < |batch| => Attempt(batch[i], outcomes[batch[i]].at, outcomes[batch[i]].ok))
  }

  ghost function Apply(s: State, e: Event): State
    requires Enabled(s, e)
  {
    match e
    case Enqueue(id, at) =>
      s.(rows := s.rows[id := NewRow(at)], enqueuedAt := s.enqueuedAt[id := at], clock := at)
    case Pass(now, batch, outcomes) =>
      s.(rows := AfterPass(s.rows, outcomes), clock := now, log := s.log + Attempts(batch, outcomes))
  }

  ghost predicate IsRun(s: State, events: seq<Event>)
    decreases |events|
  {
    events == [] || (Enabled(s, events[0]) && IsRun(Apply(s, events[0]), events[1..]))
  }

  ghost function After(s: State, events: seq<Event>): State
    requires IsRun(s, events)
    decreases |events|
  {
    if events == [] then s else After(Apply(s, events[0]), events[1..])
  }

  const EMPTY := State(map[], map[], 0, [])

  function CountOf(log: seq<Attempt>, id: Id, ok: bool): nat {
    if log == [] then 0 else (if log[0].id == id && log[0].ok == ok then 1 else 0) + CountOf(log[1..], id, ok)
  }

  /** Which attempt on its row entry i of the log is, from 1. */
  function Ordinal(log: seq<Attempt>, i: nat): nat
    requires i < |log|
  {
    CountOf(log[..i], log[i].id, false) + CountOf(log[..i], log[i].id, true) + 1
  }

  /** Where a row stands follows from its recorded attempts. */
  ghost predicate Accounted(s: State, id: Id)
    requires id in s.enqueuedAt
  {
    var failures, successes := CountOf(s.log, id, false), CountOf(s.log, id, true);
    if id !in s.rows then successes == 1 && failures < DEFAULT_MAX_ATTEMPTS
    else
      && successes == 0
      && s.rows[id].attempts == failures
      && s.rows[id].maxAttempts == DEFAULT_MAX_ATTEMPTS
      && match s.rows[id].status
         case Pending => failures < DEFAULT_MAX_ATTEMPTS
           && s.rows[id].nextAt >= s.enqueuedAt[id] + BackoffSum(failures + 1)
         case Exhausted => failures == DEFAULT_MAX_ATTEMPTS
  }

  /** No recorded attempt came before its backoff had passed. */
  ghost predicate OnTime(s: State, i: nat)
    requires i < |s.log|
  {
    var id := s.log[i].id;
    id in s.enqueuedAt && s.log[i].at >= s.enqueuedAt[id] + BackoffSum(Ordinal(s.log, i))
  }

  ghost predicate Inv(s: State) {
    && (forall id | id in s.rows :: id in s.enqueuedAt)
    && (forall id | id in s.enqueuedAt :: Accounted(s, id))
    && (forall i | 0 <= i < |s.log| :: OnTime(s, i))
  }

  lemma {:induction false} CountOfConcat(a: seq<Attempt>, b: seq<Attempt>, id: Id, ok: bool)
    ensures CountOf(a + b, id, ok) == CountOf(a, id, ok) + CountOf(b, id, ok)
  {
    if a == [] {
      assert a + b == b;
    } else {
      assert (a + b)[1..] == a[1..] + b;
      CountOfConcat(a[1..], b, id, ok);
    }
  }

  lemma {:induction false} CountOfOthers(log: seq<Attempt>, id: Id, ok: bool)
    requires forall i | 0 <= i < |log| :: log[i].id != id
    ensures CountOf(log, id, ok) == 0
  {
    if log != [] { CountOfOthers(log[1..], id, ok); }
  }

  /** A batch attempts each of its rows once. */
  lemma CountInBatch(batch: seq<Id>, outcomes: map<Id, Outcome>, i: nat, ok: bool)
    requires Distinct(batch) && (forall id | id in batch :: id in outcomes) && i < |batch|
    ensures CountOf(Attempts(batch, outcomes)[..i], batch[i], ok) == 0
    ensures CountOf(Attempts(batch, outcomes), batch[i], ok) == if outcomes[batch[i]].ok == ok then 1 else 0
  {
    var log, id := Attempts(batch, outcomes), batch[i];
    CountOfOthers(log[..i], id, ok);
    CountOfOthers(log[i + 1..], id, ok);
    assert log == log[..i] + ([log[i]] + log[i + 1..]);
    CountOfConcat(log[..i], [log[i]] + log[i + 1..], id, ok);
    CountOfConcat([log[i]], log[i + 1..], id, ok);
    assert [log[i]][1..] == [];
  }

  lemma EnqueueKeeps(s: State, e: Event)
    requires Inv(s) && e.Enqueue? && Enabled(s, e)
    ensures Inv(Apply(s, e))
  {
    var s' := Apply(s, e);
    forall i | 0 <= i < |s.log|
      ensures s.log[i].id != e.id
    {
      assert OnTime(s, i);
    }
    CountOfOthers(s.log, e.id, false);
    CountOfOthers(s.log, e.id, true);
    assert BackoffSum(1) == BackoffSum(0) + Backoff(0);
    forall id | id in s'.enqueuedAt
      ensures Accounted(s', id)
    {
      assert id != e.id ==> Accounted(s, id);
    }
    forall i | 0 <= i < |s'.log|
      ensures OnTime(s', i)
    {
      assert OnTime(s, i);
    }
  }

  /** What a pass does to a row it claims. */
  lemma AttemptedKeepsAccount(s: State, e: Event, i: nat)
    requires Inv(s) && e.Pass? && Enabled(s, e) && i < |e.batch| && e.batch[i] in s.enqueuedAt
    ensures Accounted(Apply(s, e), e.batch[i])
  {
    var id, log := e.batch[i], Attempts(e.batch, e.outcomes);
    assert Accounted(s, id) && IsDue(s.rows, id, e.now);
    hide CountOf, BackoffSum, Inv;
    CountOfConcat(s.log, log, id, false);
    CountOfConcat(s.log, log, id, true);
    CountInBatch(e.batch, e.outcomes, i, false);
    CountInBatch(e.batch, e.outcomes, i, true);
    NextBackoff(s.rows[id].attempts + 1);
  }

  lemma NextBackoff(k: nat)
    ensures BackoffSum(k + 1) == BackoffSum(k) + Backoff(k)
  {
  }

  lemma OthersKeepAccount(s: State, e: Event, id: Id)
    requires Inv(s) && e.Pass? && Enabled(s, e) && id in s.enqueuedAt && id !in e.batch
    ensures Accounted(Apply(s, e), id)
  {
    var log := Attempts(e.batch, e.outcomes);
    assert Accounted(s, id);
    hide CountOf, BackoffSum, Inv, IsClaim;
    CountOfConcat(s.log, log, id, false);
    CountOfConcat(s.log, log, id, true);
    CountOfOthers(log, id, false);
    CountOfOthers(log, id, true);
  }

  lemma PassKeepsAccounts(s: State, e: Event, id: Id)
    requires Inv(s) && e.Pass? && Enabled(s, e) && id in s.enqueuedAt
    ensures Accounted(Apply(s, e), id)
  {
    hide Enabled, Apply, Accounted, Inv;
    if i :| 0 <= i < |e.batch| && e.batch[i] == id {
      AttemptedKeepsAccount(s, e, i);
    } else {
      OthersKeepAccount(s, e, id);
    }
  }

  lemma OrdinalInBatch(before: seq<Attempt>, batch: seq<Id>, outcomes: map<Id, Outcome>, j: nat)
    requires Distinct(batch) && (forall id | id in batch :: id in outcomes) && j < |batch|
    ensures var log, id := Attempts(batch, outcomes), batch[j];
            Ordinal(before + log, |before| + j) == CountOf(before, id, false) + CountOf(before, id, true) + 1
  {
    var log, id := Attempts(batch, outcomes), batch[j];
    assert (before + log)[..|before| + j] == before + log[..j];
    CountOfConcat(before, log[..j], id, false);
    CountOfConcat(before, log[..j], id, true);
    CountInBatch(batch, outcomes, j, false);
    CountInBatch(batch, outcomes, j, true);
  }

  /** An earlier entry of the log keeps its place. */
  lemma OldIsOnTime(s: State, e: Event, i: nat)
    requires e.Pass? && Enabled(s, e) && i < |s.log| && OnTime(s, i)
    ensures i < |Apply(s, e).log| && OnTime(Apply(s, e), i)
  {
    hide CountOf, BackoffSum, IsClaim, AfterPass;
    assert (s.log + Attempts(e.batch, e.outcomes))[..i] == s.log[..i];
  }

  /** A new one is of a row that was due. */
  lemma NewIsOnTime(s: State, e: Event, j: nat)
    requires Inv(s) && e.Pass? && Enabled(s, e) && j < |e.batch|
    ensures |s.log| + j < |Apply(s, e).log| && OnTime(Apply(s, e), |s.log| + j)
  {
    var id, log := e.batch[j], Attempts(e.batch, e.outcomes);
    assert IsDue(s.rows, id, e.now) && Accounted(s, id) && e.outcomes[id].at >= e.now;
    hide CountOf, BackoffSum, IsClaim, AfterPass, Inv, Ordinal;
    assert (s.log + log)[|s.log| + j] == log[j];
    OrdinalInBatch(s.log, e.batch, e.outcomes, j);
  }

  lemma PassIsOnTime(s: State, e: Event, i: nat)
    requires Inv(s) && e.Pass? && Enabled(s, e) && i < |Apply(s, e).log|
    ensures OnTime(Apply(s, e), i)
  {
    if i < |s.log| {
      assert OnTime(s, i);
      OldIsOnTime(s, e, i);
    } else {
      NewIsOnTime(s, e, i - |s.log|);
    }
    hide Inv, OnTime;
  }

  lemma StepKeeps(s: State, e: Event)
    requires Inv(s) && Enabled(s, e)
    ensures Inv(Apply(s, e))
  {
    if e.Enqueue? {
      EnqueueKeeps(s, e);
    } else {
      forall id | id in s.enqueuedAt
        ensures Accounted(Apply(s, e), id)
      {
        PassKeepsAccounts(s, e, id);
      }
      forall i | 0 <= i < |Apply(s, e).log|
        ensures OnTime(Apply(s, e), i)
      {
        PassIsOnTime(s, e, i);
      }
    }
  }

  lemma {:induction false} RunKeeps(s: State, events: seq<Event>)
    requires Inv(s) && IsRun(s, events)
    ensures Inv(After(s, events))
    decreases |events|
  {
    if events != [] {
      StepKeeps(s, events[0]);
      RunKeeps(Apply(s, events[0]), events[1..]);
    }
  }

  /** Over every run: a row is gone exactly when one attempt succeeded, exhausted exactly after five
      failures, and pending otherwise; and no attempt came early, the fifth not before 321 minutes. */
  lemma RetryDiscipline(events: seq<Event>)
    requires IsRun(EMPTY, events)
    ensures var s := After(EMPTY, events);
            && (forall id | id in s.enqueuedAt ::
                  var failures, successes := CountOf(s.log, id, false), CountOf(s.log, id, true);
                  && (id !in s.rows <==> successes == 1)
                  && (id in s.rows ==> successes == 0)
                  && (id in s.rows && s.rows[id].status == Exhausted <==> failures == 5)
                  && failures <= 5)
            && (forall i | 0 <= i < |s.log| ::
                  && s.log[i].id in s.enqueuedAt
                  && Ordinal(s.log, i) <= 5
                  && s.log[i].at >= s.enqueuedAt[s.log[i].id] + BackoffSum(Ordinal(s.log, i)))
    ensures BackoffSum(5) == 321 * MINUTE
  {
    var s := After(EMPTY, events);
    RunKeeps(EMPTY, events);
    forall id | id in s.enqueuedAt
      ensures Accounted(s, id)
    {
    }
    forall i | 0 <= i < |s.log|
      ensures OnTime(s, i) && Ordinal(s.log, i) <= 5
    {
      var id := s.log[i].id;
      assert OnTime(s, i) && Accounted(s, id);
      assert s.log == s.log[..i] + s.log[i..] && s.log[i..][0] == s.log[i];
      CountOfConcat(s.log[..i], s.log[i..], id, false);
      CountOfConcat(s.log[..i], s.log[i..], id, true);
    }
    assert BackoffSum(5) == Backoff(0) + Backoff(1) + Backoff(2) + Backoff(3) + Backoff(4);
  }

  // ---- when the next attempt is ----

  /** When the row was last attempted, or enqueued if it has not been. */
  function LastTried(log: seq<Attempt>, id: Id, enqueued: Time): Time {
    if log == [] then enqueued
    else if log[|log| - 1].id == id then log[|log| - 1].at
    else LastTried(log[..|log| - 1], id, enqueued)
  }

  ghost predicate Scheduled(s: State, id: Id) {
    id in s.rows && s.rows[id].status.Pending? ==>
      id in s.enqueuedAt && s.rows[id].nextAt == LastTried(s.log, id, s.enqueuedAt[id]) + Backoff(s.rows[id].attempts)
  }

  lemma {:induction false} TriedInBatch(log: seq<Attempt>, more: seq<Attempt>, id: Id, enqueued: Time)
    ensures (forall i | 0 <= i < |more| :: more[i].id != id) ==>
              LastTried(log + more, id, enqueued) == LastTried(log, id, enqueued)
    ensures forall i | 0 <= i < |more| && more[i].id == id && (forall j | i < j < |more| :: more[j].id != id) ::
              LastTried(log + more, id, enqueued) == more[i].at
  {
    if more == [] {
      assert log + more == log;
    } else {
      var n := |more| - 1;
      assert (log + more)[..|log + more| - 1] == log + more[..n];
      TriedInBatch(log, more[..n], id, enqueued);
    }
  }

  lemma AttemptedIsScheduled(s: State, e: Event, i: nat)
    requires Enabled(s, e) && e.Pass? && i < |e.batch| && e.batch[i] in s.enqueuedAt && e.batch[i] in s.rows
    ensures Scheduled(Apply(s, e), e.batch[i])
  {
    hide LastTried, IsClaim, Backoff;
    var id, log := e.batch[i], Attempts(e.batch, e.outcomes);
    TriedInBatch(s.log, log, id, s.enqueuedAt[id]);
    ClaimIsDistinct(s, e);
    assert log[i].id == id && forall j | i < j < |log| :: log[j].id != id;
  }

  lemma ClaimIsDistinct(s: State, e: Event)
    requires Enabled(s, e) && e.Pass?
    ensures Distinct(e.batch)
  {
  }

  lemma OthersStayScheduled(s: State, e: Event, id: Id)
    requires Enabled(s, e) && e.Pass? && Scheduled(s, id) && id !in e.batch
    ensures Scheduled(Apply(s, e), id)
  {
    hide LastTried, IsClaim, Backoff;
    if id in s.enqueuedAt {
      TriedInBatch(s.log, Attempts(e.batch, e.outcomes), id, s.enqueuedAt[id]);
    }
  }

  lemma PassKeepsScheduled(s: State, e: Event, id: Id)
    requires Enabled(s, e) && e.Pass? && Inv(s) && Scheduled(s, id)
    ensures Scheduled(Apply(s, e), id)
  {
    if i :| 0 <= i < |e.batch| && e.batch[i] == id {
      assert IsDue(s.rows, id, e.now);
      AttemptedIsScheduled(s, e, i);
    } else {
      OthersStayScheduled(s, e, id);
    }
    hide Apply, Enabled, Scheduled;
  }

  lemma {:induction false} NeverTried(log: seq<Attempt>, id: Id, enqueued: Time)
    requires forall i | 0 <= i < |log| :: log[i].id != id
    ensures LastTried(log, id, enqueued) == enqueued
  {
    if log != [] {
      NeverTried(log[..|log| - 1], id, enqueued);
    }
  }

  lemma StepKeepsScheduled(s: State, e: Event, id: Id)
    requires Enabled(s, e) && Inv(s) && Scheduled(s, id)
    ensures Scheduled(Apply(s, e), id)
  {
    if e.Pass? {
      PassKeepsScheduled(s, e, id);
    } else if e.id == id {
      forall i | 0 <= i < |s.log| ensures s.log[i].id != id {
        assert OnTime(s, i);
      }
      NeverTried(s.log, id, e.at);
    }
    hide Inv, LastTried;
  }

  lemma {:induction false} RunKeepsScheduled(s: State, events: seq<Event>, id: Id)
    requires IsRun(s, events) && Inv(s) && Scheduled(s, id)
    ensures Scheduled(After(s, events), id)
    decreases |events|
  {
    if events != [] {
      StepKeeps(s, events[0]);
      StepKeepsScheduled(s, events[0], id);
      hide Inv, Enabled, Apply, Scheduled;
      RunKeepsScheduled(Apply(s, events[0]), events[1..], id);
    }
  }

  /** Over every run: a pending row is due exactly 1, 5, 15, 60 or 240 minutes after it was last tried, by
      the number of its failures; for a row not tried yet, 1 minute after it was enqueued. */
  lemma NextAttemptIsExact(events: seq<Event>, id: Id)
    requires IsRun(EMPTY, events)
    requires id in After(EMPTY, events).rows && After(EMPTY, events).rows[id].status.Pending?
    ensures var s := After(EMPTY, events);
            && id in s.enqueuedAt && s.rows[id].attempts < 5
            && s.rows[id].attempts == CountOf(s.log, id, false)
            && s.rows[id].nextAt ==
               LastTried(s.log, id, s.enqueuedAt[id]) + [1, 5, 15, 60, 240][s.rows[id].attempts] * MINUTE
  {
    RunKeeps(EMPTY, events);
    RunKeepsScheduled(EMPTY, events, id);
    assert Accounted(After(EMPTY, events), id);
    hide IsRun, After, CountOf, LastTried, BackoffSum;
  }

  // ---- bounded wait ----

  /** The pending rows that may be served before this one. */
  function Ahead(rows: Table, id: Id): set<Id>
    requires id in rows
  {
    set other | other in rows && other != id && rows[other].status.Pending? && rows[other].nextAt <= rows[id].nextAt
  }

  function Passes(events: seq<Event>): nat {
    if events == [] then 0 else (if events[0].Pass? then 1 else 0) + Passes(events[1..])
  }

  predicate Attempted(events: seq<Event>, id: Id) {
    exists i :: 0 <= i < |events| && events[i].Pass? && id in events[i].batch
  }

  function Members(ids: seq<Id>): set<Id> {
    set id | id in ids
  }

  lemma {:induction false} MembersCount(ids: seq<Id>)
    requires Distinct(ids)
    ensures |Members(ids)| == |ids|
  {
    if ids != [] {
      var last, rest := ids[|ids| - 1], ids[..|ids| - 1];
      MembersCount(rest);
      assert ids == rest + [last];
      assert Members(ids) == Members(rest) + {last};
    }
  }

  /** An enqueued row is put behind every row already due. */
  lemma EnqueueLandsBehind(s: State, e: Event, id: Id)
    requires e.Enqueue? && Enabled(s, e) && IsDue(s.rows, id, s.clock) && s.rows.Keys <= s.enqueuedAt.Keys
    ensures IsDue(Apply(s, e).rows, id, Apply(s, e).clock)
    ensures Ahead(Apply(s, e).rows, id) == Ahead(s.rows, id)
  {
    var s' := Apply(s, e);
    assert e.id !in s.rows && s'.rows[id] == s.rows[id];
    assert forall other :: other in Ahead(s'.rows, id) <==> other in Ahead(s.rows, id);
  }

  /** A pass that leaves a due row alone takes a full batch of rows ahead of it, and what it
      reschedules lands behind. */
  lemma PassShrinksAhead(s: State, e: Event, id: Id)
    requires e.Pass? && Enabled(s, e) && IsDue(s.rows, id, s.clock) && id !in e.batch
    ensures IsDue(Apply(s, e).rows, id, Apply(s, e).clock)
    ensures |Ahead(Apply(s, e).rows, id)| == |Ahead(s.rows, id)| - CLAIM_LIMIT
  {
    var s', ahead := Apply(s, e), Ahead(s.rows, id);
    var batch := Members(e.batch);
    MembersCount(e.batch);
    assert IsDue(s.rows, id, e.now);
    forall b | b in e.batch
      ensures b in ahead && b !in Ahead(s'.rows, id)
    {
      assert IsDue(s.rows, b, e.now) && DueAt(s.rows, b) <= DueAt(s.rows, id);
    }
    assert forall other :: other in Ahead(s'.rows, id) <==> other in ahead && other !in batch;
    assert Ahead(s'.rows, id) == ahead - batch && batch <= ahead;
  }

  lemma {:induction false} WaitIsBounded(s: State, events: seq<Event>, id: Id)
    requires IsRun(s, events) && IsDue(s.rows, id, s.clock) && s.rows.Keys <= s.enqueuedAt.Keys
    requires !Attempted(events, id)
    ensures Passes(events) * CLAIM_LIMIT <= |Ahead(s.rows, id)|
    decreases |events|
  {
    if events != [] {
      var e, rest := events[0], events[1..];
      assert !Attempted(rest, id) by {
        assert forall i | 0 <= i < |rest| :: rest[i] == events[i + 1];
      }
      if e.Enqueue? {
        EnqueueLandsBehind(s, e, id);
      } else {
        PassShrinksAhead(s, e, id);
      }
      WaitIsBounded(Apply(s, e), rest, id);
    }
  }

  /** A due row with r pending rows ahead of it is attempted in the first r / 100 + 1 passes, whatever
      is enqueued meanwhile and however the attempts go. */
  lemma BoundedWait(before: seq<Event>, events: seq<Event>, id: Id)
    requires IsRun(EMPTY, before) && IsRun(After(EMPTY, before), events)
    requires var s := After(EMPTY, before);
             IsDue(s.rows, id, s.clock) && Passes(events) >= |Ahead(s.rows, id)| / CLAIM_LIMIT + 1
    ensures Attempted(events, id)
  {
    var s := After(EMPTY, before);
    RunKeeps(EMPTY, before);
    if !Attempted(events, id) {
      WaitIsBounded(s, events, id);
    }
  }
}

/** core/setup_checklist_stall_alert.py: telling the owner about paying workspaces whose setup has
    stalled. Passes run one after the other. */
module StallAlert {
  import opened Wrappers
  import opened SetupChecklist

  /** Microseconds. */
  const THRESHOLD: int := 72 * 3_600_000_000

  /** A workspace row: its checklist columns, whether it pays, when it was created, and when the owner
      was last alerted about it. */
  datatype Account = Account(setup: Workspace, paying: bool, createdAt: Time, alertedAt: Option<Time>)

  function Baseline(d: Detail, createdAt: Time): Time {
    if d.lastActivity.Some? then d.lastActivity.value else createdAt
  }

  /** Below five of five, silent for 72 hours, and with activity since the last alert, if any. */
  predicate Due(a: Account, d: Detail, now: Time) {
    && a.paying && d.completed < 5
    && now - Baseline(d, a.createdAt) >= THRESHOLD
    && (a.alertedAt.Some? ==> a.alertedAt.value < Baseline(d, a.createdAt))
  }

  function Alerted(tables: Tables, accounts: map<Id, Account>, now: Time, mailed: set<Id>): set<Id> {
    set id | id in accounts && id in mailed && Due(accounts[id], DetailOf(tables, accounts[id].setup), now)
  }

  function Setup(accounts: map<Id, Account>, id: Id): Workspace {
    if id in accounts then accounts[id].setup else NO_COLUMNS
  }

  const NO_COLUMNS := Workspace(0, None, None, None, None, None, None, None, None)

  function Marked(accounts: map<Id, Account>, ids: set<Id>, now: Time): map<Id, Account> {
    map id | id in accounts :: if id in ids then accounts[id].(alertedAt := Some(now)) else accounts[id]
  }

  class Workspaces {
    var accounts: map<Id, Account>
    var tables: Tables

    constructor (accounts: map<Id, Account>, tables: Tables)
      ensures this.accounts == accounts && this.tables == tables
    {
      this.accounts, this.tables := accounts, tables;
    }

    method Details(rows: seq<Id>) returns (details: map<Id, Detail>)
      requires forall id | id in accounts :: accounts[id].setup.id == id
      requires forall i, j | 0 <= i < j < |rows| :: rows[i] != rows[j]
      requires forall id | id in rows :: id in accounts
      ensures forall id | id in rows :: id in details && details[id] == DetailOf(tables, accounts[id].setup)
    {
      hide DetailOf;
      var held := accounts;
      var workspaces := seq(|rows|, i requires 0 <= i < |rows| => Setup(held, rows[i]));
      assert forall i | 0 <= i < |rows| :: rows[i] in rows && workspaces[i].id == rows[i];
      details := ComputeBulk(tables, workspaces);
      forall id | id in rows ensures id in details && details[id] == DetailOf(tables, accounts[id].setup) {
        var i :| 0 <= i < |rows| && rows[i] == id;
        assert workspaces[i] in workspaces && workspaces[i].id == id;
      }
    }

    /** The checks of a pass, in their order; the account is a paying one. */
    static method NeedsAlert(a: Account, detail: Detail, now: Time) returns (due: bool)
      requires a.paying
      ensures due == Due(a, detail, now)
    {
      if detail.completed >= 5 {
        return false;
      }
      var baseline := if detail.lastActivity.Some? then detail.lastActivity.value else a.createdAt;
      if now - baseline < THRESHOLD {
        return false;
      }
      if a.alertedAt.Some? && a.alertedAt.value >= baseline {
        return false;
      }
      return true;
    }

    /** One pass over the rows as the query returned them: exactly those due, whose mail went out, are
        marked with the time of the pass. */
    method RunStalledSetupCheck(now: Time, rows: seq<Id>, mailed: set<Id>) returns (checked: nat, alerted: seq<Id>)
      requires forall id | id in accounts :: accounts[id].setup.id == id
      requires forall i, j | 0 <= i < j < |rows| :: rows[i] != rows[j]
      requires forall id :: id in rows <==> id in accounts && accounts[id].paying
      modifies this`accounts
      ensures checked == |rows|
      ensures forall id :: id in alerted <==> id in Alerted(tables, old(accounts), now, mailed)
      ensures accounts == Marked(old(accounts), Alerted(tables, old(accounts), now, mailed), now)
    {
      hide DetailOf, Alerted, Due;
      checked := |rows|;
      var held := accounts;
      var details := Details(rows);
      alerted := [];
      ghost var due := Alerted(tables, held, now, mailed);
      for i := 0 to |rows|
        invariant accounts.Keys == held.Keys
        invariant forall k | i <= k < |rows| :: accounts[rows[k]] == held[rows[k]]
        invariant forall id | id in accounts ::
                    accounts[id] == if id in alerted then held[id].(alertedAt := Some(now)) else held[id]
        invariant forall id | id in alerted :: id in due
        invariant forall k | 0 <= k < i :: rows[k] in due ==> rows[k] in alerted
      {
        var id := rows[i];
        assert id in rows;
        DueIs(tables, held, now, mailed, id);
        var needed := NeedsAlert(accounts[id], details[id], now);
        if !needed || id !in mailed {
          continue;
        }
        accounts := accounts[id := accounts[id].(alertedAt := Some(now))];
        alerted := alerted + [id];
      }
      forall id | id in due ensures id in alerted {
        DueIs(tables, held, now, mailed, id);
        DueIsPaying(held, tables, now, id);
        assert id in rows;
      }
    }
  }

  lemma DueIsPaying(accounts: map<Id, Account>, tables: Tables, now: Time, id: Id)
    requires id in accounts && Due(accounts[id], DetailOf(tables, accounts[id].setup), now)
    ensures accounts[id].paying
  {
  }

  lemma DueIs(tables: Tables, accounts: map<Id, Account>, now: Time, mailed: set<Id>, id: Id)
    ensures id in Alerted(tables, accounts, now, mailed) <==>
            id in accounts && id in mailed && Due(accounts[id], DetailOf(tables, accounts[id].setup), now)
  {
  }

  // ---- runs ----

  /** An alert: when, and what the checklist was. */
  datatype Alert = Alert(at: Time, detail: Detail)

  /** The rows and tables, the clock, and every alert so far by workspace. */
  datatype State = State(accounts: map<Id, Account>, tables: Tables, clock: Time, log: map<Id, seq<Alert>>)

  /** A pass; or any change of the world that keeps the workspaces and their creation times, and leaves
      the alert column to the passes. Workspaces are created no later than they appear. */
  datatype Event =
    | Pass(now: Time, mailed: set<Id>)
    | Change(accounts: map<Id, Account>, tables: Tables, now: Time)

  function LogOf(s: State, id: Id): seq<Alert> {
    if id in s.log then s.log[id] else []
  }

  function DetailAt(s: State, id: Id): Detail
    requires id in s.accounts
  {
    DetailOf(s.tables, s.accounts[id].setup)
  }

  predicate Enabled(s: State, e: Event) {
    && s.clock <= e.now
    && match e
       case Pass(_, _) => true
       case Change(accounts, _, now) =>
         && (forall id | id in s.accounts ::
               && id in accounts && accounts[id].createdAt == s.accounts[id].createdAt
                  && accounts[id].alertedAt == s.accounts[id].alertedAt
               && accounts[id].setup.id == id)
         && forall id | id in accounts && id !in s.accounts ::
              accounts[id].alertedAt.None? && accounts[id].createdAt <= now && accounts[id].setup.id == id
  }

  function Apply(s: State, e: Event): State
    requires Enabled(s, e)
  {
    match e
    case Change(accounts, tables, now) => s.(accounts := accounts, tables := tables, clock := now)
    case Pass(now, mailed) =>
      var ids := Alerted(s.tables, s.accounts, now, mailed);
      State(Marked(s.accounts, ids, now), s.tables, now,
            map id | id in s.accounts :: LogOf(s, id) + if id in ids then [Alert(now, DetailAt(s, id))] else [])
  }

  ghost predicate IsRun(s: State, events: seq<Event>)
    decreases |events|
  {
    events == [] || (Enabled(s, events[0]) && IsRun(Apply(s, events[0]), events[1..]))
  }

  ghost function After(s: State, events: seq<Event>): State
    requires IsRun(s, events)
    decreases |events|
  {
    if events == [] then s else After(Apply(s, events[0]), events[1..])
  }

  const EMPTY := State(map[], Tables([], []), 0, map[])

  // ---- alerts are far apart ----

  /** Each alert is more than 72 hours behind the one before it, and the activity it goes by came after
      that one and at least 72 hours before itself. */
  ghost predicate FarApart(log: seq<Alert>) {
    forall i | 0 < i < |log| ::
      && log[i].at - log[i - 1].at > THRESHOLD
      && log[i].detail.lastActivity.Some?
      && log[i - 1].at < log[i].detail.lastActivity.value <= log[i].at - THRESHOLD
  }

  ghost predicate LogOk(s: State, id: Id) {
    if id in s.accounts then
      s.accounts[id].setup.id == id && s.accounts[id].createdAt <= s.clock
        && AccountOk(s.accounts[id], LogOf(s, id), s.clock)
    else LogOf(s, id) == []
  }

  /** The alert column is the last alert, and each alert was for 72 hours of silence. */
  ghost predicate AccountOk(a: Account, log: seq<Alert>, clock: Time) {
    && FarApart(log)
    && (forall k | 0 <= k < |log| ::
          a.createdAt <= log[k].at <= clock && Baseline(log[k].detail, a.createdAt) <= log[k].at - THRESHOLD)
    && a.alertedAt == if log == [] then None else Some(log[|log| - 1].at)
  }

  /** What a pass does to one workspace. */
  lemma PassAt(s: State, e: Event, id: Id)
    requires Enabled(s, e) && e.Pass? && id in s.accounts
    ensures var n := Apply(s, e);
            && id in n.accounts && n.clock == e.now && n.tables == s.tables
            && if id in e.mailed && Due(s.accounts[id], DetailAt(s, id), e.now) then
                 n.accounts[id] == s.accounts[id].(alertedAt := Some(e.now))
                   && LogOf(n, id) == LogOf(s, id) + [Alert(e.now, DetailAt(s, id))]
               else n.accounts[id] == s.accounts[id] && LogOf(n, id) == LogOf(s, id)
  {
    hide DetailOf, Due;
  }

  lemma FarApartWith(log: seq<Alert>, next: Alert)
    requires FarApart(log)
    requires log != [] ==>
               && next.at - log[|log| - 1].at > THRESHOLD && next.detail.lastActivity.Some?
               && log[|log| - 1].at < next.detail.lastActivity.value <= next.at - THRESHOLD
    ensures FarApart(log + [next])
  {
  }

  lemma AlertKeepsOk(a: Account, log: seq<Alert>, clock: Time, d: Detail, now: Time)
    requires AccountOk(a, log, clock) && clock <= now && a.createdAt <= clock && Due(a, d, now)
    ensures AccountOk(a.(alertedAt := Some(now)), log + [Alert(now, d)], now)
  {
    FarApartWith(log, Alert(now, d));
    hide FarApart;
    var more, b := log + [Alert(now, d)], a.(alertedAt := Some(now));
    forall k | 0 <= k < |more|
      ensures b.createdAt <= more[k].at <= now && Baseline(more[k].detail, b.createdAt) <= more[k].at - THRESHOLD
    {
      assert k < |log| ==> more[k] == log[k];
    }
  }

  lemma LaterClock(a: Account, b: Account, log: seq<Alert>, clock: Time, now: Time)
    requires AccountOk(a, log, clock) && clock <= now && b.createdAt == a.createdAt && b.alertedAt == a.alertedAt
    ensures AccountOk(b, log, now)
  {
  }

  lemma StepKeepsLog(s: State, e: Event, id: Id)
    requires Enabled(s, e) && LogOk(s, id)
    ensures LogOk(Apply(s, e), id)
  {
    hide DetailOf, Due, AccountOk;
    var n := Apply(s, e);
    if id in s.accounts {
      if e.Pass? {
        PassAt(s, e, id);
      }
      if e.Pass? && id in e.mailed && Due(s.accounts[id], DetailAt(s, id), e.now) {
        AlertKeepsOk(s.accounts[id], LogOf(s, id), s.clock, DetailAt(s, id), e.now);
      } else {
        LaterClock(s.accounts[id], n.accounts[id], LogOf(s, id), s.clock, e.now);
      }
    } else if id in n.accounts {
      NewAccountOk(n.accounts[id], n.clock);
    }
  }

  lemma NewAccountOk(a: Account, clock: Time)
    requires a.alertedAt.None?
    ensures AccountOk(a, [], clock)
  {
  }

  lemma {:induction false} RunKeepsLogs(s: State, events: seq<Event>)
    requires IsRun(s, events) && forall id :: LogOk(s, id)
    ensures forall id :: LogOk(After(s, events), id)
    decreases |events|
  {
    if events != [] {
      hide LogOk, Enabled, Apply;
      forall id ensures LogOk(Apply(s, events[0]), id) {
        StepKeepsLog(s, events[0], id);
      }
      RunKeepsLogs(Apply(s, events[0]), events[1..]);
    }
  }

  /** Over every run, two alerts for a workspace are more than 72 hours apart, with an item completed in
      between, itself at least 72 hours before the second. */
  lemma AlertsAreFarApart(events: seq<Event>, id: Id, i: nat, j: nat)
    requires IsRun(EMPTY, events) && i < j < |LogOf(After(EMPTY, events), id)|
    ensures var log := LogOf(After(EMPTY, events), id);
            && log[j].at - log[i].at > THRESHOLD
            && exists item :: item in Items(log[j].detail) && item.completedAt.Some?
                              && log[i].at < item.completedAt.value <= log[j].at - THRESHOLD
  {
    RunKeepsLogs(EMPTY, events);
    var s := After(EMPTY, events);
    assert LogOk(s, id);
    hide IsRun, After;
    Chained(LogOf(s, id), i, j);
    LoggedDetails(EMPTY, events, id);
  }

  lemma {:induction false} Chained(log: seq<Alert>, i: nat, j: nat)
    requires FarApart(log) && i < j < |log|
    ensures log[j].at - log[i].at > THRESHOLD
    ensures log[j].detail.lastActivity.Some? && log[i].at < log[j].detail.lastActivity.value <= log[j].at - THRESHOLD
    decreases j
  {
    if i < j - 1 {
      Chained(log, i, j - 1);
    }
  }

  lemma {:induction false} LoggedDetails(s: State, events: seq<Event>, id: Id)
    requires IsRun(s, events) && forall a | a in LogOf(s, id) :: WellFormed(a.detail)
    ensures forall a | a in LogOf(After(s, events), id) :: WellFormed(a.detail)
    decreases |events|
  {
    if events != [] {
      hide DetailOf, WellFormed;
      if id in s.accounts {
        DetailsAreWellFormed(s.tables, s.accounts[id].setup);
      }
      LoggedDetails(Apply(s, events[0]), events[1..], id);
    }
  }

  // ---- at most five ----

  /** The completion time of every item of the workspace is written once. */
  ghost predicate KeepsTimes(a: Detail, b: Detail) {
    forall k | 0 <= k < 5 :: Items(a)[k].completedAt.Some? ==> Items(b)[k].completedAt == Items(a)[k].completedAt
  }

  ghost predicate WriteOnce(s: State, events: seq<Event>, id: Id)
    requires IsRun(s, events)
    decreases |events|
  {
    events == []
    || (&& (id in s.accounts ==>
              id in Apply(s, events[0]).accounts && KeepsTimes(DetailAt(s, id), DetailAt(Apply(s, events[0]), id)))
        && WriteOnce(Apply(s, events[0]), events[1..], id))
  }

  /** Details that keep times either are the same or have more items done. */
  lemma MoreIsDone(a: Detail, b: Detail)
    requires KeepsTimes(a, b) && WellFormed(a) && WellFormed(b)
    ensures b.completed >= a.completed
    ensures b.completed == a.completed ==> b.lastActivity == a.lastActivity
  {
    CountOfFive(a.cloud, a.repo, a.alert, a.channel, a.test);
    CountOfFive(b.cloud, b.repo, b.alert, b.channel, b.test);
    ItemKept(a, b, 0);
    ItemKept(a, b, 1);
    ItemKept(a, b, 2);
    ItemKept(a, b, 3);
    ItemKept(a, b, 4);
    hide Count, WellFormed, KeepsTimes;
    if b.completed == a.completed {
      assert Items(a) == Items(b);
      SameItems(a, b);
    }
  }

  lemma ItemKept(a: Detail, b: Detail, k: nat)
    requires k < 5 && KeepsTimes(a, b) && WellFormed(a) && WellFormed(b)
    ensures Items(a)[k].done ==> Items(b)[k] == Items(a)[k]
    ensures !Items(a)[k].done && !Items(b)[k].done ==> Items(b)[k] == Items(a)[k]
    ensures a.completed == Count(Items(a)) && b.completed == Count(Items(b))
  {
    assert Items(a)[k] in Items(a) && Items(b)[k] in Items(b);
    hide Count;
  }

  lemma SameItems(a: Detail, b: Detail)
    requires WellFormed(a) && WellFormed(b) && Items(a) == Items(b)
    ensures b.lastActivity == a.lastActivity
  {
    hide Count;
  }

  /** There are at most as many alerts as items done at the last one, and one more. */
  ghost predicate CountOk(log: seq<Alert>, d: Detail) {
    log != [] ==>
      var last := log[|log| - 1].detail;
      |log| <= last.completed + 1 && last.completed < 5 && WellFormed(last) && KeepsTimes(last, d)
  }

  /** A workspace is due again only with more items done than at its last alert. */
  lemma DueAgainHasMore(a: Account, log: seq<Alert>, clock: Time, d: Detail, now: Time)
    requires AccountOk(a, log, clock) && CountOk(log, d) && log != [] && WellFormed(d) && Due(a, d, now)
    ensures d.completed > log[|log| - 1].detail.completed
  {
    hide WellFormed, KeepsTimes;
    MoreIsDone(log[|log| - 1].detail, d);
  }

  lemma TimesChain(a: Detail, b: Detail, c: Detail)
    requires KeepsTimes(a, b) && KeepsTimes(b, c)
    ensures KeepsTimes(a, c)
  {
  }

  lemma StepKeepsCount(s: State, e: Event, id: Id)
    requires Enabled(s, e) && LogOk(s, id) && id in s.accounts && CountOk(LogOf(s, id), DetailAt(s, id))
    requires id in Apply(s, e).accounts && KeepsTimes(DetailAt(s, id), DetailAt(Apply(s, e), id))
    ensures CountOk(LogOf(Apply(s, e), id), DetailAt(Apply(s, e), id))
  {
    hide DetailOf, WellFormed, KeepsTimes, FarApart;
    var log, d, d' := LogOf(s, id), DetailAt(s, id), DetailAt(Apply(s, e), id);
    DetailsAreWellFormed(s.tables, s.accounts[id].setup);
    if log != [] {
      TimesChain(log[|log| - 1].detail, d, d');
    }
    if e.Pass? {
      PassAt(s, e, id);
      if id in e.mailed && Due(s.accounts[id], d, e.now) && log != [] {
        DueAgainHasMore(s.accounts[id], log, s.clock, d, e.now);
      }
    }
  }

  lemma {:induction false} RunKeepsCount(s: State, events: seq<Event>, id: Id)
    requires IsRun(s, events) && WriteOnce(s, events, id) && forall k :: LogOk(s, k)
    requires id in s.accounts ==> CountOk(LogOf(s, id), DetailAt(s, id))
    ensures id in After(s, events).accounts ==> CountOk(LogOf(After(s, events), id), DetailAt(After(s, events), id))
    ensures id !in After(s, events).accounts ==> LogOf(After(s, events), id) == []
    decreases |events|
  {
    if events != [] {
      var e, next := events[0], Apply(s, events[0]);
      hide Enabled, LogOk, DetailAt, KeepsTimes, CountOk;
      forall k ensures LogOk(next, k) {
        StepKeepsLog(s, e, k);
      }
      if id in s.accounts {
        StepKeepsCount(s, e, id);
      } else if id in next.accounts {
        NoLogYet(s, e, id);
      }
      RunKeepsCount(next, events[1..], id);
    } else {
      assert LogOk(s, id);
    }
  }

  lemma NoLogYet(s: State, e: Event, id: Id)
    requires Enabled(s, e) && LogOk(s, id) && id !in s.accounts && id in Apply(s, e).accounts
    ensures CountOk(LogOf(Apply(s, e), id), DetailAt(Apply(s, e), id))
  {
    assert LogOf(s, id) == [];
  }

  /** A workspace whose items are each completed once, at a time that stays, is alerted about at most
      five times, over any number of passes. */
  lemma AtMostFiveAlerts(events: seq<Event>, id: Id)
    requires IsRun(EMPTY, events) && WriteOnce(EMPTY, events, id)
    ensures |LogOf(After(EMPTY, events), id)| <= 5
  {
    RunKeepsCount(EMPTY, events, id);
  }

  // ---- nobody is forgotten ----

  /** A pass alerts exactly about the paying workspaces with fewer than five items done whose mail goes out
      and that have been silent, since their last item or else their creation, for 72 hours or more and
      longer than their last alert is ago. */
  lemma AlertedExactlyWhen(s: State, e: Event, id: Id)
    requires Enabled(s, e) && e.Pass? && id in s.accounts
    ensures var a, d := s.accounts[id], DetailAt(s, id);
            var since := if d.lastActivity.Some? then d.lastActivity.value else a.createdAt;
            var due := && a.paying && id in e.mailed && d.completed < 5
                       && e.now - since >= 72 * 3_600_000_000 && (a.alertedAt.Some? ==> a.alertedAt.value < since);
            && |LogOf(Apply(s, e), id)| == |LogOf(s, id)| + (if due then 1 else 0)
            && Apply(s, e).accounts[id].alertedAt == if due then Some(e.now) else a.alertedAt
  {
    hide DetailOf;
    PassAt(s, e, id);
  }
}

/** core/setup_checklist.py: the five setup items of a workspace, when each was completed, and the
    batched form of the same computation. */
module SetupChecklist {
  import opened Wrappers

  type Id = nat
  type Time = int

  /** The columns of a workspace that the checklist reads, NULL as None. */
  datatype Workspace = Workspace(
    id: Id, awsRole: Option<Time>, azure: Option<Time>, k8s: Option<Time>, githubInstallation: Option<int>,
    githubInstalled: Option<Time>, githubPat: Option<Time>, azureDevopsPat: Option<Time>, setupTest: Option<Time>)

  /** A row of the alert log or of the notification channels; enabled is true for all alerts. */
  datatype Row = Row(workspace: Option<Id>, enabled: bool, at: Option<Time>)

  datatype Tables = Tables(alerts: seq<Row>, channels: seq<Row>)

  datatype Item = Item(done: bool, completedAt: Option<Time>)

  datatype Detail = Detail(cloud: Item, repo: Item, alert: Item, channel: Item, test: Item, completed: nat,
    lastActivity: Option<Time>)

  // ---- items ----

  /** The smaller of two times, NULL counting as none. */
  function Earlier(a: Option<Time>, b: Option<Time>): Option<Time> {
    match (a, b)
    case (Some(x), Some(y)) => Some(if y < x then y else x)
    case (None, _) => b
    case _ => a
  }

  function Later(a: Option<Time>, b: Option<Time>): Option<Time> {
    match (a, b)
    case (Some(x), Some(y)) => Some(if y > x then y else x)
    case (None, _) => b
    case _ => a
  }

  function Earliest(times: seq<Option<Time>>): Option<Time> {
    if times == [] then None else Earlier(Earliest(times[..|times| - 1]), times[|times| - 1])
  }

  function Latest(times: seq<Option<Time>>): Option<Time> {
    if times == [] then None else Later(Latest(times[..|times| - 1]), times[|times| - 1])
  }

  function ItemOf(times: seq<Option<Time>>): Item {
    Item(Earliest(times).Some?, Earliest(times))
  }

  function Count(items: seq<Item>): nat {
    if items == [] then 0 else Count(items[..|items| - 1]) + if items[|items| - 1].done then 1 else 0
  }

  function Bit(b: bool): nat {
    if b then 1 else 0
  }

  function Assembled(cloud: Item, repo: Item, alert: Item, channel: Item, test: Item): Detail {
    Detail(cloud, repo, alert, channel, test, Count([cloud, repo, alert, channel, test]),
           Latest([cloud.completedAt, repo.completedAt, alert.completedAt, channel.completedAt, test.completedAt]))
  }

  function Items(d: Detail): seq<Item> {
    [d.cloud, d.repo, d.alert, d.channel, d.test]
  }

  // ---- one workspace at a time ----

  /** SELECT MIN(at) ... WHERE workspace_id = id AND enabled; NULL over no rows and over NULLs only. */
  function FirstAt(rows: seq<Row>, id: Id): Option<Time> {
    if rows == [] then None
    else
      var last := rows[|rows| - 1];
      Earlier(FirstAt(rows[..|rows| - 1], id), if last.workspace == Some(id) && last.enabled then last.at else None)
  }

  function DetailOf(tables: Tables, w: Workspace): Detail {
    Assembled(
      ItemOf([w.awsRole, w.azure, w.k8s]),
      ItemOf([w.githubInstalled, w.githubPat, w.azureDevopsPat]),
      ItemOf([FirstAt(tables.alerts, w.id)]),
      ItemOf([FirstAt(tables.channels, w.id)]),
      ItemOf([w.setupTest]))
  }

  // ---- all workspaces in two queries ----

  /** SELECT workspace_id, MIN(at) ... WHERE workspace_id = ANY(ids) AND enabled GROUP BY workspace_id: a
      workspace without rows is in no group, one with NULLs only has a NULL minimum. */
  function FirstByWorkspace(rows: seq<Row>, ids: set<Id>): map<Id, Option<Time>> {
    if rows == [] then map[]
    else
      var groups, last := FirstByWorkspace(rows[..|rows| - 1], ids), rows[|rows| - 1];
      if last.workspace.None? || last.workspace.value !in ids || !last.enabled then groups
      else
        var id := last.workspace.value;
        groups[id := if id in groups then Earlier(groups[id], last.at) else last.at]
  }

  /** dict.get: a missing group and a NULL minimum come to the same. */
  function Looked(groups: map<Id, Option<Time>>, id: Id): Option<Time> {
    if id in groups then groups[id] else None
  }

  lemma {:induction false} GroupsAgree(rows: seq<Row>, ids: set<Id>, id: Id)
    requires id in ids
    ensures Looked(FirstByWorkspace(rows, ids), id) == FirstAt(rows, id)
  {
    if rows != [] {
      GroupsAgree(rows[..|rows| - 1], ids, id);
    }
  }

  function Ids(workspaces: seq<Workspace>): set<Id> {
    set w | w in workspaces :: w.id
  }

  /** For every workspace, what the one-at-a-time form gives; of two with one id, the later. */
  method ComputeBulk(tables: Tables, workspaces: seq<Workspace>) returns (result: map<Id, Detail>)
    ensures result.Keys == Ids(workspaces)
    ensures forall i | 0 <= i < |workspaces|
            && (forall j | i < j < |workspaces| :: workspaces[j].id != workspaces[i].id) ::
              result[workspaces[i].id] == DetailOf(tables, workspaces[i])
  {
    var ids := Ids(workspaces);
    result := map[];
    if workspaces == [] {
      return;
    }
    var firstAlert := FirstByWorkspace(tables.alerts, ids);
    var firstChannel := FirstByWorkspace(tables.channels, ids);
    for i := 0 to |workspaces|
      invariant forall id :: id in result <==> exists j :: 0 <= j < i && workspaces[j].id == id
      invariant forall j | 0 <= j < i && (forall k | j < k < i :: workspaces[k].id != workspaces[j].id) ::
                  result[workspaces[j].id] == DetailOf(tables, workspaces[j])
    {
      var w := workspaces[i];
      var cloud := ItemOf([w.awsRole, w.azure, w.k8s]);
      var repo := ItemOf([w.githubInstalled, w.githubPat, w.azureDevopsPat]);
      var alert := ItemOf([Looked(firstAlert, w.id)]);
      var channel := ItemOf([Looked(firstChannel, w.id)]);
      var test := ItemOf([w.setupTest]);
      GroupsAgree(tables.alerts, ids, w.id);
      GroupsAgree(tables.channels, ids, w.id);
      result := result[w.id := Assembled(cloud, repo, alert, channel, test)];
    }
  }

  // ---- what a detail says ----

  lemma {:induction false} EarliestIs(times: seq<Option<Time>>)
    ensures Earliest(times).None? <==> forall t | t in times :: t.None?
    ensures Earliest(times).Some? ==>
            Earliest(times) in times && forall t | t in times && t.Some? :: Earliest(times).value <= t.value
  {
    if times != [] {
      var front, last := times[..|times| - 1], times[|times| - 1];
      EarliestIs(front);
      assert times == front + [last];
    }
  }

  lemma {:induction false} LatestIs(times: seq<Option<Time>>)
    ensures Latest(times).None? <==> forall t | t in times :: t.None?
    ensures Latest(times).Some? ==>
            Latest(times) in times && forall t | t in times && t.Some? :: t.value <= Latest(times).value
  {
    if times != [] {
      var front, last := times[..|times| - 1], times[|times| - 1];
      LatestIs(front);
      assert times == front + [last];
    }
  }

  lemma {:induction false} FirstAtIs(rows: seq<Row>, id: Id)
    ensures FirstAt(rows, id).None? <==> forall r | r in rows && r.workspace == Some(id) && r.enabled :: r.at.None?
    ensures FirstAt(rows, id).Some? ==>
              && (exists r :: r in rows && r.workspace == Some(id) && r.enabled && r.at == FirstAt(rows, id))
              && forall r | r in rows && r.workspace == Some(id) && r.enabled && r.at.Some? ::
                 FirstAt(rows, id).value <= r.at.value
  {
    if rows != [] {
      var front, last := rows[..|rows| - 1], rows[|rows| - 1];
      FirstAtIs(front, id);
      assert rows == front + [last];
      if FirstAt(front, id).Some? {
        var r :| r in front && r.workspace == Some(id) && r.enabled && r.at == FirstAt(front, id);
        assert r in rows;
      }
    }
  }

  lemma CountSnoc(items: seq<Item>, item: Item)
    ensures Count(items + [item]) == Count(items) + if item.done then 1 else 0
  {
    assert (items + [item])[..|items|] == items;
  }

  lemma CountOfFive(a: Item, b: Item, c: Item, d: Item, e: Item)
    ensures Count([a, b, c, d, e]) == Bit(a.done) + Bit(b.done) + Bit(c.done) + Bit(d.done) + Bit(e.done)
  {
    CountSnoc([], a);
    CountSnoc([a], b);
    CountSnoc([a, b], c);
    CountSnoc([a, b, c], d);
    CountSnoc([a, b, c, d], e);
    assert [] + [a] == [a] && [a] + [b] == [a, b] && [a, b] + [c] == [a, b, c];
    assert [a, b, c] + [d] == [a, b, c, d] && [a, b, c, d] + [e] == [a, b, c, d, e];
  }

  /** A detail's items are done exactly when they have a time; the last activity is the latest of those
      times, if there is one. */
  ghost predicate WellFormed(d: Detail) {
    && (forall item | item in Items(d) :: item.done <==> item.completedAt.Some?)
    && d.completed == Count(Items(d))
    && (d.lastActivity.None? <==> d.completed == 0)
    && (d.lastActivity.Some? ==>
          && (exists item :: item in Items(d) && item.completedAt == d.lastActivity)
          && forall item | item in Items(d) && item.done :: item.completedAt.value <= d.lastActivity.value)
  }

  lemma AssembledIsWellFormed(a: Item, b: Item, c: Item, d: Item, e: Item)
    requires forall item | item in [a, b, c, d, e] :: item.done <==> item.completedAt.Some?
    ensures WellFormed(Assembled(a, b, c, d, e))
  {
    var items, times := [a, b, c, d, e], [a.completedAt, b.completedAt, c.completedAt, d.completedAt, e.completedAt];
    var detail := Assembled(a, b, c, d, e);
    assert Items(detail) == items && detail.lastActivity == Latest(times);
    LatestIs(times);
    CountOfFive(a, b, c, d, e);
    hide Latest, Count;
    assert forall i | 0 <= i < 5 :: items[i] in items && times[i] in times && items[i].completedAt == times[i];
    if Latest(times).Some? {
      var i :| 0 <= i < 5 && times[i] == Latest(times);
      assert items[i].completedAt == detail.lastActivity;
      assert items[i].done && Bit(items[i].done) == 1;
    } else {
      assert times[0].None? && times[1].None? && times[2].None? && times[3].None? && times[4].None?;
    }
  }

  lemma DetailsAreWellFormed(tables: Tables, w: Workspace)
    ensures WellFormed(DetailOf(tables, w))
  {
    var d := DetailOf(tables, w);
    AssembledIsWellFormed(d.cloud, d.repo, d.alert, d.channel, d.test);
  }

  // ---- the customer's checklist ----

  datatype Checklist = Checklist(cloud: bool, repo: bool, alert: bool, channel: bool, test: bool, completed: nat)

  predicate HasRow(rows: seq<Row>, id: Id) {
    exists r :: r in rows && r.workspace == Some(id) && r.enabled
  }

  function Truthy(n: Option<int>): bool {
    n.Some? && n.value != 0
  }

  function ChecklistOf(tables: Tables, w: Workspace): Checklist {
    var cloud := w.awsRole.Some? || w.azure.Some? || w.k8s.Some?;
    var repo := Truthy(w.githubInstallation) || w.githubPat.Some? || w.azureDevopsPat.Some?;
    var alert, channel := HasRow(tables.alerts, w.id), HasRow(tables.channels, w.id);
    Checklist(cloud, repo, alert, channel, w.setupTest.Some?,
      Bit(cloud) + Bit(repo) + Bit(alert) + Bit(channel) + Bit(w.setupTest.Some?))
  }

  /** The customer sees five ticks by other columns than the admin: the two agree on every item exactly
      when the GitHub App's id and its installation time agree, unless another repository credential is
      verified, and no table has rows for the workspace that all lack a time. */
  lemma ChecklistsAgreeExactlyWhen(tables: Tables, w: Workspace)
    ensures var c, d := ChecklistOf(tables, w), DetailOf(tables, w);
            (c.cloud == d.cloud.done && c.repo == d.repo.done && c.alert == d.alert.done
              && c.channel == d.channel.done && c.test == d.test.done)
            <==>
            && (Truthy(w.githubInstallation) == w.githubInstalled.Some? || w.githubPat.Some? || w.azureDevopsPat.Some?)
            && (HasRow(tables.alerts, w.id) ==>
               exists r :: r in tables.alerts && r.workspace == Some(w.id) && r.enabled && r.at.Some?)
            && (HasRow(tables.channels, w.id) ==>
               exists r :: r in tables.channels && r.workspace == Some(w.id) && r.enabled && r.at.Some?)
  {
    FirstAtIs(tables.alerts, w.id);
    FirstAtIs(tables.channels, w.id);
    AnyOfThree(w.awsRole, w.azure, w.k8s);
    AnyOfThree(w.githubInstalled, w.githubPat, w.azureDevopsPat);
    JustOne(FirstAt(tables.alerts, w.id));
    JustOne(FirstAt(tables.channels, w.id));
    JustOne(w.setupTest);
    hide FirstAt, ItemOf, Latest, Count;
  }

  lemma AnyOfThree(x: Option<Time>, y: Option<Time>, z: Option<Time>)
    ensures ItemOf([x, y, z]).done <==> x.Some? || y.Some? || z.Some?
  {
    EarliestIs([x, y, z]);
    assert x in [x, y, z] && y in [x, y, z] && z in [x, y, z];
  }

  lemma JustOne(x: Option<Time>)
    ensures ItemOf([x]).done <==> x.Some?
  {
    EarliestIs([x]);
    assert x in [x];
  }

  /** A GitHub App that is installed, with no time of installation: done for the customer only. */
  lemma ChecklistsDisagree()
    ensures var w := Workspace(0, None, None, None, Some(1), None, None, None, None);
            ChecklistOf(Tables([], []), w).repo && !DetailOf(Tables([], []), w).repo.done
  {
    AnyOfThree(None, None, None);
  }

  /** An item is completed when the first of its signals came. */
  lemma ItemIsTheFirst(times: seq<Option<Time>>)
    ensures var item := ItemOf(times);
            && (item.done <==> item.completedAt.Some?)
            && (item.done ==> item.completedAt in times)
            && forall t | t in times && t.Some? :: item.done && item.completedAt.value <= t.value
  {
    EarliestIs(times);
  }
}

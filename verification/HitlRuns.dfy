/** agents/agent_01_cicd_triage/workflow.py, the pattern all agents share: a graph that pauses at the
    gate for an operator and is resumed from its checkpoint, its gate node running again from the top.

    The machine interleaves any number of runs, approvals and resumes, statement by statement where
    the database sees it, and any of them may die at any point. */
module HitlRuns {
  import opened Wrappers
  import opened Incidents
  import Notifications

  datatype Node = Diagnose | Gate | Execute | Complete | End

  /** The saved state of a graph: the node to run next, whether diagnosis failed, the incident the
      later nodes act on, the chosen option, and whether the tools reported that they held it. */
  datatype Checkpoint = Checkpoint(next: Node, error: bool, incident: Id, selected: Option<Choice>, held: bool)

  /** How far an invocation is inside its node. */
  datatype Progress = Entered | Inserted | Recorded | Called

  /** What a resume carries: the choice, the approval it comes from as a position in their log, and the
      node at which it took the graph up. */
  datatype Resumption = Resumption(approval: nat, choice: Choice, loaded: Node)

  /** One ainvoke: its thread, what it was resumed with if it is not the first, its state in memory, how
      far it got, whether it is still running, and the option it has called the tools with. */
  datatype Invocation = Invocation(
    thread: Id, resumed: Option<Resumption>, at: Checkpoint, progress: Progress, alive: bool, executed: Option<Choice>)

  /** The tables; the checkpoints by thread; every invocation ever made; route calls between check and
      update; the approvals in order; which of them have been taken up; and the usage rows, each an
      incident id and the invocation that wrote it. */
  datatype State = State(
    db: Db, threads: map<Id, Checkpoint>, runs: seq<Invocation>, checked: multiset<(Id, Choice)>,
    approved: seq<(Id, Choice)>, taken: set<nat>, usage: seq<(Id, nat)>)

  const EMPTY := State(Db(map[], []), map[], [], multiset{}, [], {}, [])

  datatype Event =
    | Start(thread: Id)
    | Diagnosed(i: nat, error: bool)
    | InsertFailed(i: nat, newId: Id)
    | LeaveFailedGate(i: nat)
    | Insert(i: nat, severity: Severity, options: seq<nat>, tokens: nat)
    | Record(i: nat)
    | Interrupt(i: nat)
    | SkipOption(i: nat)
    | CallOption(i: nat, held: bool)
    | LeaveExecute(i: nat)
    | Finish(i: nat)
    | Die(i: nat)
    | RaiseInResume(i: nat)
    | Check(id: Id, choice: Choice)
    | Approve(id: Id, choice: Choice)
    | Resume(k: nat)
    | Close(id: Id, status: Status)

  predicate AtNode(s: State, i: nat, node: Node, progress: Progress) {
    i < |s.runs| && s.runs[i].alive && s.runs[i].at.next == node && s.runs[i].progress == progress
  }

  predicate Enabled(s: State, e: Event) {
    match e
    case Start(thread) => thread !in s.threads && thread !in s.db.incidents
    case Diagnosed(i, _) => AtNode(s, i, Diagnose, Entered)
    case InsertFailed(i, newId) =>
      AtNode(s, i, Gate, Entered) && s.runs[i].at.error && newId !in s.db.incidents && newId !in s.threads
    case LeaveFailedGate(i) => AtNode(s, i, Gate, Inserted) && s.runs[i].at.error
    case Insert(i, _, _, _) => AtNode(s, i, Gate, Entered) && !s.runs[i].at.error
    case Record(i) => AtNode(s, i, Gate, Inserted) && !s.runs[i].at.error
    case Interrupt(i) => AtNode(s, i, Gate, Recorded)
    case SkipOption(i) => AtNode(s, i, Execute, Entered) && s.runs[i].at.selected.None?
    case CallOption(i, _) => AtNode(s, i, Execute, Entered) && s.runs[i].at.selected.Some?
    case LeaveExecute(i) => AtNode(s, i, Execute, Called)
    case Finish(i) => AtNode(s, i, Complete, Entered)
    case Die(i) => i < |s.runs|
    case RaiseInResume(i) => i < |s.runs| && s.runs[i].alive && s.runs[i].resumed.Some?
    case Check(id, choice) => Checked(s.db, id, choice).Ok?
    case Approve(id, choice) => (id, choice) in s.checked
    case Resume(k) => k < |s.approved| && k !in s.taken && !s.approved[k].1.Hold?
    case Close(id, status) => status in {Rejected, ResolvedManually, BudgetExceeded, Failed}
  }

  function Moved(s: State, i: nat, run: Invocation): State
    requires i < |s.runs|
  {
    s.(runs := s.runs[i := run])
  }

  /** The node ends: its successor and the new state are saved. */
  function Saved(s: State, i: nat, at: Checkpoint): State
    requires i < |s.runs|
  {
    Moved(s, i, s.runs[i].(at := at, progress := Entered)).(threads := s.threads[s.runs[i].thread := at])
  }

  /** The checkpoint under this thread id; without one the graph would start afresh. */
  function Loaded(s: State, thread: Id): Checkpoint {
    if thread in s.threads then s.threads[thread] else Checkpoint(Diagnose, false, thread, None, false)
  }

  function Apply(s: State, e: Event): State
    requires Enabled(s, e)
  {
    match e
    case Start(thread) =>
      var at := Checkpoint(Diagnose, false, thread, None, false);
      s.(threads := s.threads[thread := at], runs := s.runs + [Invocation(thread, None, at, Entered, true, None)])
    case Diagnosed(i, error) => Saved(s, i, s.runs[i].at.(next := Gate, error := error))
    case InsertFailed(i, newId) =>
      Moved(s, i, s.runs[i].(at := s.runs[i].at.(incident := newId), progress := Inserted))
        .(db := WithFailedIncident(s.db, newId, s.runs[i].thread))
    case LeaveFailedGate(i) => Saved(s, i, s.runs[i].at.(next := Execute))
    case Insert(i, severity, options, tokens) =>
      Moved(s, i, s.runs[i].(progress := Inserted))
        .(db := WithIncident(s.db, s.runs[i].at.incident, s.runs[i].thread, severity, options, tokens))
    case Record(i) => Moved(s, i, s.runs[i].(progress := Recorded)).(usage := s.usage + [(s.runs[i].at.incident, i)])
    case Interrupt(i) =>
      if s.runs[i].resumed.None? then Moved(s, i, s.runs[i].(alive := false))
      else Saved(s, i, s.runs[i].at.(next := Execute, selected := Some(s.runs[i].resumed.value.choice)))
    case SkipOption(i) => Saved(s, i, s.runs[i].at.(next := Complete))
    case CallOption(i, held) =>
      Moved(s, i, s.runs[i].(at := s.runs[i].at.(held := held), progress := Called, executed := s.runs[i].at.selected))
    case LeaveExecute(i) => Saved(s, i, s.runs[i].at.(next := Complete))
    case Finish(i) =>
      Saved(s, i, s.runs[i].at.(next := End))
        .(db := WithStatus(s.db, s.runs[i].at.incident, if s.runs[i].at.held then Held else Executed, 0))
    case Die(i) => Moved(s, i, s.runs[i].(alive := false))
    case RaiseInResume(i) =>
      Moved(s, i, s.runs[i].(alive := false)).(db := WithStatus(s.db, s.runs[i].thread, Failed, 0))
    case Check(id, choice) => s.(checked := s.checked + multiset{(id, choice)})
    case Approve(id, choice) =>
      s.(db := WithApproval(s.db, id, choice), checked := s.checked - multiset{(id, choice)},
         approved := s.approved + [(id, choice)])
    case Resume(k) =>
      var (thread, choice) := s.approved[k];
      var at := Loaded(s, thread);
      s.(taken := s.taken + {k},
        runs := s.runs + [Invocation(thread, Some(Resumption(k, choice, at.next)), at, Entered, true, None)])
    case Close(id, status) => s.(db := WithStatus(s.db, id, status, 0))
  }

  ghost predicate IsRun(s: State, events: seq<Event>)
    decreases |events|
  {
    events == [] || (Enabled(s, events[0]) && IsRun(Apply(s, events[0]), events[1..]))
  }

  ghost function After(s: State, events: seq<Event>): State
    requires IsRun(s, events)
    decreases |events|
  {
    if events == [] then s else After(Apply(s, events[0]), events[1..])
  }

  // ---- what every step keeps ----

  /** A thread past diagnosis whose diagnosis did not fail. */
  predicate Sound(s: State, t: Id) {
    t in s.threads && s.threads[t].next != Diagnose && !s.threads[t].error
  }

  predicate Failing(s: State, t: Id) {
    t in s.threads && s.threads[t].next != Diagnose && s.threads[t].error
  }

  predicate PastGate(node: Node) {
    node.Execute? || node.Complete? || node.End?
  }

  /** The choice was approved for this thread, and it is not a hold. */
  ghost predicate IsApproved(s: State, t: Id, selected: Option<Choice>) {
    selected.Some? && !selected.value.Hold? && (t, selected.value) in s.approved
  }

  ghost predicate ThreadOk(s: State, t: Id)
    requires t in s.threads
  {
    var at := s.threads[t];
    && (at.error ==> at.next != Diagnose && at.selected.None? && !at.held && t !in s.db.incidents)
    && (!at.error ==> at.incident == t)
    && (at.next == Diagnose ==> t !in s.db.incidents && at.selected.None? && !at.held)
    && (!at.error && PastGate(at.next) ==> t in s.db.incidents && IsApproved(s, t, at.selected))
  }

  /** A row is its run's own if the diagnosis did not fail, and has another id than any thread if it did. */
  ghost predicate RowOk(s: State, id: Id)
    requires id in s.db.incidents
  {
    var row := s.db.incidents[id];
    if Sound(s, row.run) then row.run == id
    else Failing(s, row.run) && id !in s.threads && row.status != Pending
         && exists i :: 0 <= i < |s.runs| && s.runs[i].thread == row.run && s.runs[i].at.incident == id
  }

  ghost predicate ResumedOk(s: State, run: Invocation) {
    run.resumed.Some? ==>
      var r := run.resumed.value;
      && r.approval < |s.approved| && r.approval in s.taken && s.approved[r.approval] == (run.thread, r.choice)
      && !r.choice.Hold? && !run.at.error && run.at.next != Diagnose
      && (if r.loaded.Gate? then PastGate(run.at.next) ==> run.at.selected == Some(r.choice) else PastGate(run.at.next))
      && (r.loaded.Gate? && run.executed.Some? ==> run.executed == Some(r.choice))
  }

  /** An invocation whose diagnosis failed never calls the tools, and inserts one row. */
  ghost predicate FailingOk(s: State, run: Invocation) {
    run.at.error ==>
      && run.at.selected.None? && run.executed.None? && !run.at.held && run.progress in {Entered, Inserted}
      && (run.at.next.Gate? && run.progress.Entered? ==> run.at.incident == run.thread)
      && (PastGate(run.at.next) || run.progress.Inserted? ==>
            run.at.incident in s.db.incidents && s.db.incidents[run.at.incident].run == run.thread)
  }

  /** Any other acts on the incident of its own thread, and past the gate on an approved choice. */
  ghost predicate SoundOk(s: State, run: Invocation) {
    !run.at.error ==>
      && run.at.incident == run.thread && (run.progress.Called? ==> run.executed.Some?)
      && (run.at.next.Gate? && run.progress in {Inserted, Recorded} ==> run.thread in s.db.incidents)
      && (PastGate(run.at.next) ==>
            run.resumed.Some? && run.thread in s.db.incidents && IsApproved(s, run.thread, run.at.selected))
      && (run.executed.Some? ==> run.resumed.Some? && IsApproved(s, run.thread, run.executed))
  }

  ghost predicate RunOk(s: State, run: Invocation) {
    && run.thread in s.threads
    && (run.at.next == Diagnose ==>
          run.resumed.None? && s.threads[run.thread] == run.at && run.executed.None? && run.progress.Entered?)
    && (run.at.next != Diagnose ==>
       s.threads[run.thread].next != Diagnose && s.threads[run.thread].error == run.at.error)
    && ResumedOk(s, run) && FailingOk(s, run) && SoundOk(s, run)
  }

  /** Of the invocations of one thread all but the first are resumes, each of another approval. */
  ghost predicate PairOk(a: Invocation, b: Invocation) {
    && (a.thread == b.thread ==> b.resumed.Some?)
    && (a.resumed.Some? && b.resumed.Some? ==> a.resumed.value.approval != b.resumed.value.approval)
  }

  ghost predicate NoticesOk(s: State) {
    && (forall j, k | 0 <= j < k < |s.db.notices| :: s.db.notices[j] != s.db.notices[k])
    && (forall id :: Created(id) in s.db.notices <==> id in s.db.incidents && Sound(s, s.db.incidents[id].run))
    && (forall id :: FailedAtOnce(id) in s.db.notices <==> id in s.db.incidents && Failing(s, s.db.incidents[id].run))
  }

  /** The first invocation of a thread goes through the gate, and a resume that takes the graph up there. */
  predicate EntersGate(run: Invocation) {
    run.resumed.None? || run.resumed.value.loaded.Gate?
  }

  predicate BeforeRecord(run: Invocation) {
    run.at.next.Diagnose? || (run.at.next.Gate? && run.progress in {Entered, Inserted})
  }

  /** An invocation that goes through the gate, does not fail, and has got past recording there. */
  predicate Charged(run: Invocation) {
    EntersGate(run) && !run.at.error && !BeforeRecord(run)
  }

  predicate HasUsage(s: State, i: nat) {
    exists u :: 0 <= u < |s.usage| && s.usage[u].1 == i
  }

  ghost predicate UsageOk(s: State) {
    && (forall u | 0 <= u < |s.usage| ::
          s.usage[u].1 < |s.runs| && s.runs[s.usage[u].1].thread == s.usage[u].0 && Charged(s.runs[s.usage[u].1]))
    && (forall u, v | 0 <= u < v < |s.usage| :: s.usage[u].1 != s.usage[v].1)
    && (forall i | 0 <= i < |s.runs| && Charged(s.runs[i]) :: HasUsage(s, i))
  }

  ghost predicate ApprovalsOk(s: State) {
    && (forall x | x in s.checked :: Sound(s, x.0) && x.0 in s.db.incidents)
    && (forall x | x in s.approved :: Sound(s, x.0) && x.0 in s.db.incidents)
  }

  ghost predicate ThreadsOk(s: State) {
    forall t | t in s.threads :: ThreadOk(s, t)
  }

  ghost predicate RowsOk(s: State) {
    forall id | id in s.db.incidents :: RowOk(s, id)
  }

  ghost predicate RunsOk(s: State) {
    forall i | 0 <= i < |s.runs| :: RunOk(s, s.runs[i])
  }

  ghost predicate PairsOk(s: State) {
    forall i, j | 0 <= i < j < |s.runs| :: PairOk(s.runs[i], s.runs[j])
  }

  ghost predicate Valid(s: State) {
    ThreadsOk(s) && RowsOk(s) && RunsOk(s) && PairsOk(s) && NoticesOk(s) && UsageOk(s) && ApprovalsOk(s)
  }

  // ---- one step ----

  /** Nothing is forgotten: threads, rows and approvals stay, and what diagnosis said stays. */
  ghost predicate Grows(s: State, n: State) {
    && (forall t | t in s.threads :: t in n.threads)
    && (forall t | Sound(s, t) :: Sound(n, t))
    && (forall t | Failing(s, t) :: Failing(n, t))
    && (forall id | id in s.db.incidents :: id in n.db.incidents && n.db.incidents[id].run == s.db.incidents[id].run)
    && (forall x | x in s.approved :: x in n.approved)
    && |s.approved| <= |n.approved| && (forall k | 0 <= k < |s.approved| :: n.approved[k] == s.approved[k])
    && s.taken <= n.taken
  }

  /** The steps that end a node and save a checkpoint. */
  predicate Saves(e: Event) {
    e.Diagnosed? || e.LeaveFailedGate? || e.Interrupt? || e.SkipOption? || e.LeaveExecute? || e.Finish?
  }

  lemma SaveGrows(s: State, e: Event)
    requires Enabled(s, e) && Saves(e) && RunsOk(s)
    ensures Grows(s, Apply(s, e))
  {
    assert RunOk(s, s.runs[e.i]);
    hide RunsOk, IsApproved, FailingOk, ResumedOk, SoundOk;
  }

  lemma OtherStepGrows(s: State, e: Event)
    requires Enabled(s, e) && !Saves(e)
    ensures Grows(s, Apply(s, e))
  {
  }

  lemma StepGrows(s: State, e: Event)
    requires Enabled(s, e) && RunsOk(s)
    ensures Grows(s, Apply(s, e))
  {
    hide Enabled, Apply, Grows, RunsOk;
    if Saves(e) {
      SaveGrows(s, e);
    } else {
      OtherStepGrows(s, e);
    }
  }

  lemma RunSurvives(s: State, n: State, run: Invocation)
    requires Grows(s, n) && RunOk(s, run)
    requires run.at.next == Diagnose ==> run.thread in n.threads && n.threads[run.thread] == s.threads[run.thread]
    ensures RunOk(n, run)
  {
    assert run.at.next != Diagnose ==> Sound(s, run.thread) || Failing(s, run.thread);
  }

  /** The invocation that takes this step. */
  function Acting(s: State, e: Event): nat {
    match e
    case Start(_) => |s.runs|
    case Resume(_) => |s.runs|
    case Diagnosed(i, _) => i
    case InsertFailed(i, _) => i
    case LeaveFailedGate(i) => i
    case Insert(i, _, _, _) => i
    case Record(i) => i
    case Interrupt(i) => i
    case SkipOption(i) => i
    case CallOption(i, _) => i
    case LeaveExecute(i) => i
    case Finish(i) => i
    case Die(i) => i
    case RaiseInResume(i) => i
    case _ => |s.runs|
  }

  lemma EnteringRunOk(s: State, e: Event)
    requires Enabled(s, e) && RunsOk(s) && (e.Start? || e.Resume? || e.Diagnosed?) && Grows(s, Apply(s, e))
    requires ThreadsOk(s) && ApprovalsOk(s)
    ensures RunOk(Apply(s, e), Apply(s, e).runs[Acting(s, e)])
  {
    hide Grows;
  }

  lemma FailingRunOk(s: State, e: Event)
    requires Enabled(s, e) && RunsOk(s) && (e.InsertFailed? || e.LeaveFailedGate?) && Grows(s, Apply(s, e))
    ensures RunOk(Apply(s, e), Apply(s, e).runs[Acting(s, e)])
  {
    hide Grows;
  }

  lemma GateRunOk(s: State, e: Event)
    requires Enabled(s, e) && RunsOk(s) && (e.Insert? || e.Record?) && Grows(s, Apply(s, e))
    ensures RunOk(Apply(s, e), Apply(s, e).runs[Acting(s, e)])
  {
    hide Grows;
  }

  lemma AnsweredRunOk(s: State, e: Event)
    requires Enabled(s, e) && RunsOk(s) && (e.Interrupt?) && Grows(s, Apply(s, e))
    requires ApprovalsOk(s)
    ensures RunOk(Apply(s, e), Apply(s, e).runs[Acting(s, e)])
  {
    hide Grows;
  }

  lemma ExecuteRunOk(s: State, e: Event)
    requires Enabled(s, e) && RunsOk(s) && (e.SkipOption? || e.CallOption? || e.LeaveExecute?) && Grows(s, Apply(s, e))
    ensures RunOk(Apply(s, e), Apply(s, e).runs[Acting(s, e)])
  {
    hide Grows;
  }

  lemma LastRunOk(s: State, e: Event)
    requires Enabled(s, e) && RunsOk(s) && (e.Finish? || e.Die? || e.RaiseInResume?) && Grows(s, Apply(s, e))
    ensures RunOk(Apply(s, e), Apply(s, e).runs[Acting(s, e)])
  {
    hide Grows;
  }

  lemma ActingRunOk(s: State, e: Event)
    requires Enabled(s, e) && Valid(s) && Grows(s, Apply(s, e)) && Acting(s, e) < |Apply(s, e).runs|
    ensures RunOk(Apply(s, e), Apply(s, e).runs[Acting(s, e)])
  {
    hide Enabled, Apply, RunOk, Grows;
    match e {
      case Start(_) => EnteringRunOk(s, e);
      case Resume(_) => EnteringRunOk(s, e);
      case Diagnosed(_, _) => EnteringRunOk(s, e);
      case InsertFailed(_, _) => FailingRunOk(s, e);
      case LeaveFailedGate(_) => FailingRunOk(s, e);
      case Insert(_, _, _, _) => GateRunOk(s, e);
      case Record(_) => GateRunOk(s, e);
      case Interrupt(_) => AnsweredRunOk(s, e);
      case SkipOption(_) => ExecuteRunOk(s, e);
      case CallOption(_, _) => ExecuteRunOk(s, e);
      case LeaveExecute(_) => ExecuteRunOk(s, e);
      case Finish(_) => LastRunOk(s, e);
      case Die(_) => LastRunOk(s, e);
      case RaiseInResume(_) => LastRunOk(s, e);
      case _ => OnlyActingGrows(s, e);
    }
  }

  lemma OnlyActingGrows(s: State, e: Event)
    requires Enabled(s, e) && (e.Check? || e.Approve? || e.Close?)
    ensures |Apply(s, e).runs| == |s.runs| == Acting(s, e)
  {
  }

  lemma OthersStay(s: State, e: Event, j: nat)
    requires Enabled(s, e) && j < |s.runs| && j != Acting(s, e)
    ensures |s.runs| <= |Apply(s, e).runs| <= |s.runs| + 1 && Apply(s, e).runs[j] == s.runs[j]
  {
  }

  lemma OnlyActingIsNew(s: State, e: Event)
    requires Enabled(s, e)
    ensures |s.runs| <= |Apply(s, e).runs| <= |s.runs| + 1
    ensures |Apply(s, e).runs| > |s.runs| ==> Acting(s, e) == |s.runs|
  {
  }

  /** A thread is saved to only by an invocation of its own; while it is at diagnosis, there is one. */
  lemma DiagnosingIsAlone(s: State, e: Event, j: nat)
    requires Enabled(s, e) && RunsOk(s) && PairsOk(s) && j < |s.runs| && j != Acting(s, e)
             && s.runs[j].at.next == Diagnose
    ensures s.runs[j].thread in Apply(s, e).threads
            && Apply(s, e).threads[s.runs[j].thread] == s.threads[s.runs[j].thread]
  {
    assert RunOk(s, s.runs[j]);
    if Saves(e) {
      assert RunOk(s, s.runs[e.i]);
      assert j < e.i ==> PairOk(s.runs[j], s.runs[e.i]);
      assert e.i < j ==> PairOk(s.runs[e.i], s.runs[j]);
      hide RunsOk, PairsOk, FailingOk, ResumedOk, SoundOk;
    }
  }

  lemma StepKeepsRuns(s: State, e: Event)
    requires Enabled(s, e) && Valid(s)
    ensures RunsOk(Apply(s, e))
  {
    var n := Apply(s, e);
    hide Apply, Grows, RunOk, PairsOk, Enabled, ThreadsOk, RowsOk, NoticesOk, UsageOk, ApprovalsOk, Acting;
    StepGrows(s, e);
    OnlyActingIsNew(s, e);
    forall j | 0 <= j < |n.runs| ensures RunOk(n, n.runs[j]) {
      if j == Acting(s, e) {
        ActingRunOk(s, e);
      } else {
        OthersStay(s, e, j);
        if s.runs[j].at.next == Diagnose {
          DiagnosingIsAlone(s, e, j);
        }
        RunSurvives(s, n, s.runs[j]);
      }
    }
  }

  // ---- the other invariants ----

  lemma ApprovalsCome(s: State, e: Event)
    requires Enabled(s, e)
    ensures forall x | x in Apply(s, e).checked :: x in s.checked || (e.Check? && x == (e.id, e.choice))
    ensures forall x | x in Apply(s, e).approved :: x in s.approved || x in s.checked
  {
  }

  lemma CheckedIsSound(s: State, id: Id, choice: Choice)
    requires RowsOk(s) && Enabled(s, Check(id, choice))
    ensures Sound(s, id) && id in s.db.incidents
  {
    assert RowOk(s, id);
  }

  lemma StepKeepsApprovals(s: State, e: Event)
    requires Enabled(s, e) && Valid(s)
    ensures ApprovalsOk(Apply(s, e))
  {
    hide Enabled, Apply, RunsOk, PairsOk, NoticesOk, UsageOk, ThreadsOk, RowsOk, Sound, Failing;
    StepGrows(s, e);
    ApprovalsCome(s, e);
    if e.Check? {
      CheckedIsSound(s, e.id, e.choice);
    }
  }

  lemma PairSurvives(s: State, e: Event, i: nat, j: nat)
    requires Enabled(s, e) && i < j < |s.runs| && PairOk(s.runs[i], s.runs[j])
    ensures j < |Apply(s, e).runs| && PairOk(Apply(s, e).runs[i], Apply(s, e).runs[j])
  {
    hide Checked, Loaded;
  }

  lemma NewcomerPairs(s: State, e: Event, i: nat)
    requires Enabled(s, e) && (e.Start? || e.Resume?) && i < |s.runs| && RunOk(s, s.runs[i])
    ensures PairOk(Apply(s, e).runs[i], Apply(s, e).runs[|s.runs|])
  {
  }

  lemma StepKeepsPairs(s: State, e: Event)
    requires Enabled(s, e) && Valid(s)
    ensures PairsOk(Apply(s, e))
  {
    var n := Apply(s, e);
    OnlyActingIsNew(s, e);
    assert |n.runs| > |s.runs| ==> e.Start? || e.Resume?;
    hide Apply, Enabled, RunOk, PairOk, NoticesOk, UsageOk, ThreadsOk, RowsOk, ApprovalsOk, Acting;
    forall i, j | 0 <= i < j < |n.runs| ensures PairOk(n.runs[i], n.runs[j]) {
      if j < |s.runs| {
        PairSurvives(s, e, i, j);
      } else {
        NewcomerPairs(s, e, i);
      }
    }
  }

  /** Being charged is for good, and recording alone brings it about. */
  lemma ChargedWhen(s: State, e: Event, i: nat)
    requires Enabled(s, e) && RunsOk(s) && i < |s.runs|
    ensures i < |Apply(s, e).runs| && Apply(s, e).runs[i].thread == s.runs[i].thread
    ensures Charged(Apply(s, e).runs[i]) <==> Charged(s.runs[i]) || (e.Record? && i == e.i)
    ensures e.Record? && i == e.i ==> !Charged(s.runs[i])
  {
    assert RunOk(s, s.runs[i]);
    hide RunsOk, IsApproved, Loaded;
  }

  lemma NewcomerUncharged(s: State, e: Event)
    requires Enabled(s, e) && RunsOk(Apply(s, e)) && |Apply(s, e).runs| > |s.runs|
    ensures !Charged(Apply(s, e).runs[|s.runs|])
  {
    assert RunOk(Apply(s, e), Apply(s, e).runs[|s.runs|]);
    hide RunsOk, IsApproved;
  }

  lemma UsageComes(s: State, e: Event)
    requires Enabled(s, e) && RunsOk(s)
    ensures Apply(s, e).usage == s.usage + if e.Record? then [(s.runs[e.i].thread, e.i)] else []
  {
    if e.Record? {
      assert RunOk(s, s.runs[e.i]);
      hide RunsOk;
    }
  }

  lemma StepKeepsUsage(s: State, e: Event)
    requires Enabled(s, e) && Valid(s)
    ensures UsageOk(Apply(s, e))
  {
    hide Enabled, Apply, RunsOk, PairsOk, NoticesOk, ThreadsOk, RowsOk, ApprovalsOk, Charged, Acting;
    var n := Apply(s, e);
    UsageComes(s, e);
    StepKeepsRuns(s, e);
    OnlyActingIsNew(s, e);
    if e.Record? {
      RecordsOwn(s, e);
    }
    forall i | 0 <= i < |s.runs|
      ensures n.runs[i].thread == s.runs[i].thread
      ensures Charged(n.runs[i]) <==> Charged(s.runs[i]) || (e.Record? && i == e.i)
      ensures e.Record? && i == e.i ==> !Charged(s.runs[i])
    {
      ChargedWhen(s, e, i);
    }
    forall i | 0 <= i < |n.runs| && Charged(n.runs[i]) ensures HasUsage(n, i) {
      if i == |s.runs| {
        NewcomerUncharged(s, e);
      } else if e.Record? && i == e.i {
        assert n.usage[|s.usage|].1 == i;
      } else {
        var u :| 0 <= u < |s.usage| && s.usage[u].1 == i;
        assert n.usage[u].1 == i;
      }
    }
  }

  lemma RecordsOwn(s: State, e: Event)
    requires Enabled(s, e) && e.Record?
    ensures e.i < |s.runs|
  {
  }

  lemma ThreadSurvives(s: State, n: State, t: Id)
    requires Grows(s, n) && t in s.threads && ThreadOk(s, t) && n.threads[t] == s.threads[t]
    requires t in n.db.incidents ==> t in s.db.incidents || Sound(s, t)
    ensures ThreadOk(n, t)
  {
  }

  /** Where the checkpoint of a thread comes from. */
  lemma SavedThreads(s: State, e: Event, t: Id)
    requires Enabled(s, e) && t in Apply(s, e).threads
    ensures || (t in s.threads && Apply(s, e).threads[t] == s.threads[t])
            || (e.Start? && t == e.thread)
            || (Saves(e) && t == s.runs[e.i].thread)
  {
  }

  lemma NewRow(s: State, e: Event, id: Id)
    requires Enabled(s, e) && RunsOk(s) && id in Apply(s, e).db.incidents && id !in s.db.incidents
    ensures (e.Insert? && id == s.runs[e.i].thread && Sound(s, id))
            || (e.InsertFailed? && id == e.newId && id !in Apply(s, e).threads)
  {
    if e.Insert? {
      assert RunOk(s, s.runs[e.i]);
    }
  }

  lemma SavedThreadOk(s: State, e: Event)
    requires Enabled(s, e) && Saves(e) && ThreadsOk(s) && RunsOk(s) && RunsOk(Apply(s, e))
    ensures ThreadOk(Apply(s, e), s.runs[e.i].thread)
  {
    var n, t := Apply(s, e), s.runs[e.i].thread;
    assert RunOk(s, s.runs[e.i]) && RunOk(n, n.runs[e.i]);
    assert n.runs[e.i].thread == t && n.threads.Keys == s.threads.Keys && n.db.incidents.Keys == s.db.incidents.Keys;
    assert n.threads[t] == n.runs[e.i].at || (n.threads[t] == s.threads[t] && n.approved == s.approved);
    assert n.threads[t].next != Diagnose;
    assert ThreadOk(s, t);
    hide Apply, Enabled, RunsOk, ThreadsOk, IsApproved;
  }

  lemma StepKeepsThreads(s: State, e: Event)
    requires Enabled(s, e) && Valid(s)
    ensures ThreadsOk(Apply(s, e))
  {
    StepGrows(s, e);
    StepKeepsRuns(s, e);
    var n := Apply(s, e);
    if e.Start? {
      assert ThreadOk(n, e.thread);
    }
    hide Apply, Enabled, RunsOk, PairsOk, NoticesOk, RowsOk, ApprovalsOk, ThreadOk, UsageOk;
    forall t | t in n.threads ensures ThreadOk(n, t) {
      SavedThreads(s, e, t);
      if e.Start? && t == e.thread {
      } else if Saves(e) && t == s.runs[e.i].thread {
        SavedThreadOk(s, e);
      } else {
        if t in n.db.incidents && t !in s.db.incidents {
          NewRow(s, e, t);
        }
        ThreadSurvives(s, n, t);
      }
    }
  }

  /** The row whose status a step may set. */
  function Touched(s: State, e: Event): Option<Id>
    requires Enabled(s, e)
  {
    match e
    case Finish(i) => Some(s.runs[i].at.incident)
    case RaiseInResume(i) => Some(s.runs[i].thread)
    case Approve(id, _) => Some(id)
    case Close(id, _) => Some(id)
    case _ => None
  }

  lemma OthersUntouched(s: State, e: Event, id: Id)
    requires Enabled(s, e) && id in s.db.incidents && Touched(s, e) != Some(id)
    ensures id in Apply(s, e).db.incidents && Apply(s, e).db.incidents[id] == s.db.incidents[id]
  {
    hide Checked, Loaded;
  }

  lemma TouchedIsNotPending(s: State, e: Event, id: Id)
    requires Enabled(s, e) && id in s.db.incidents && Touched(s, e) == Some(id)
    ensures id in Apply(s, e).db.incidents && Apply(s, e).db.incidents[id].status != Pending
  {
    hide Checked, Loaded;
  }

  lemma NeverPendingAgain(s: State, e: Event, id: Id)
    requires Enabled(s, e) && id in s.db.incidents
    ensures id in Apply(s, e).db.incidents
            && (Apply(s, e).db.incidents[id].status == Pending ==> s.db.incidents[id].status == Pending)
  {
    hide Enabled, Apply, Touched;
    if Touched(s, e) == Some(id) {
      TouchedIsNotPending(s, e, id);
    } else {
      OthersUntouched(s, e, id);
    }
  }

  lemma NoThreadOfItsId(s: State, e: Event, id: Id)
    requires Enabled(s, e) && id in s.db.incidents && id !in s.threads && RunsOk(s)
    ensures id !in Apply(s, e).threads
  {
    SavedKeys(s, e);
  }

  lemma SavedKeys(s: State, e: Event)
    requires Enabled(s, e) && RunsOk(s)
    ensures Apply(s, e).threads.Keys == s.threads.Keys + if e.Start? then {e.thread} else {}
  {
    if Saves(e) {
      assert RunOk(s, s.runs[e.i]);
      hide RunsOk;
    }
  }

  lemma OwnerStays(s: State, e: Event, id: Id, i: nat)
    requires Enabled(s, e) && RunsOk(s) && i < |s.runs| && s.runs[i].at.incident == id && id !in s.threads
    ensures i < |Apply(s, e).runs| && Apply(s, e).runs[i].at.incident == id
            && Apply(s, e).runs[i].thread == s.runs[i].thread
  {
    assert RunOk(s, s.runs[i]);
  }

  lemma RowSurvives(s: State, e: Event, id: Id)
    requires Enabled(s, e) && RunsOk(s) && Grows(s, Apply(s, e)) && id in s.db.incidents && RowOk(s, id)
    ensures id in Apply(s, e).db.incidents && RowOk(Apply(s, e), id)
  {
    hide Apply, Enabled, RunsOk;
    NeverPendingAgain(s, e, id);
    if !Sound(s, s.db.incidents[id].run) {
      NoThreadOfItsId(s, e, id);
      var i :| 0 <= i < |s.runs| && s.runs[i].thread == s.db.incidents[id].run && s.runs[i].at.incident == id;
      OwnerStays(s, e, id, i);
    }
  }

  lemma NewRowOk(s: State, e: Event, id: Id)
    requires Enabled(s, e) && RunsOk(s) && Grows(s, Apply(s, e)) && (e.Insert? || e.InsertFailed?)
    requires id in Apply(s, e).db.incidents && id !in s.db.incidents
    ensures RowOk(Apply(s, e), id)
  {
    NewRow(s, e, id);
    assert RunOk(s, s.runs[e.i]);
    assert Apply(s, e).runs[e.i].thread == s.runs[e.i].thread == Apply(s, e).db.incidents[id].run;
    assert e.InsertFailed? ==> Apply(s, e).runs[e.i].at.incident == id && Failing(s, s.runs[e.i].thread);
    assert e.InsertFailed? ==> Apply(s, e).db.incidents[id].status == Failed;
    hide RunsOk, Enabled, Apply, FailingOk, ResumedOk, SoundOk;
  }

  lemma StepKeepsRows(s: State, e: Event)
    requires Enabled(s, e) && Valid(s)
    ensures RowsOk(Apply(s, e))
  {
    StepGrows(s, e);
    var n := Apply(s, e);
    hide Apply, Enabled, Grows, RowOk, RunsOk, PairsOk, ThreadsOk, NoticesOk, ApprovalsOk, UsageOk;
    forall id | id in n.db.incidents ensures RowOk(n, id) {
      if id in s.db.incidents {
        RowSurvives(s, e, id);
      } else {
        NewRow(s, e, id);
        NewRowOk(s, e, id);
      }
    }
  }

  function NewNotice(s: State, e: Event): Option<Notice>
    requires Enabled(s, e)
  {
    if e.Insert? && s.runs[e.i].at.incident !in s.db.incidents then Some(Created(s.runs[e.i].at.incident))
    else if e.InsertFailed? then Some(FailedAtOnce(e.newId))
    else None
  }

  lemma NoNewNotice(s: State, e: Event)
    requires Enabled(s, e) && NewNotice(s, e).None?
    ensures Apply(s, e).db.notices == s.db.notices && Apply(s, e).db.incidents.Keys == s.db.incidents.Keys
  {
    hide Checked, Loaded;
  }

  lemma NoticesCome(s: State, e: Event)
    requires Enabled(s, e)
    ensures var n, notice := Apply(s, e), NewNotice(s, e);
            if notice.Some? then
              n.db.notices == s.db.notices + [notice.value]
                && n.db.incidents.Keys == s.db.incidents.Keys + {notice.value.id}
            else n.db.notices == s.db.notices && n.db.incidents.Keys == s.db.incidents.Keys
  {
    hide Checked, Loaded;
    if NewNotice(s, e).None? {
      NoNewNotice(s, e);
      hide Apply;
    }
  }

  /** Whether a run is sound or failing is settled by the time it has a row. */
  lemma OwnerIsSettled(s: State, n: State, id: Id)
    requires Grows(s, n) && id in s.db.incidents && RowOk(s, id)
    ensures Sound(n, n.db.incidents[id].run) <==> Sound(s, s.db.incidents[id].run)
    ensures Failing(n, n.db.incidents[id].run) <==> Failing(s, s.db.incidents[id].run)
  {
  }

  lemma NewRowsOwner(s: State, e: Event)
    requires Enabled(s, e) && RunsOk(s) && Grows(s, Apply(s, e)) && (e.Insert? || e.InsertFailed?)
    ensures var id, n := (if e.Insert? then s.runs[e.i].at.incident else e.newId), Apply(s, e);
            && id in n.db.incidents && (e.InsertFailed? ==> id !in s.db.incidents)
            && (id !in s.db.incidents ==>
                  (Sound(n, n.db.incidents[id].run) <==> e.Insert?)
                    && (Failing(n, n.db.incidents[id].run) <==> e.InsertFailed?))
  {
    assert RunOk(s, s.runs[e.i]);
    assert Sound(s, s.runs[e.i].thread) <==> e.Insert?;
  }

  lemma OwnersAreSettled(s: State, n: State)
    requires Grows(s, n) && RowsOk(s)
    ensures forall id | id in s.db.incidents ::
              && id in n.db.incidents && (Sound(n, n.db.incidents[id].run) <==> Sound(s, s.db.incidents[id].run))
              && (Failing(n, n.db.incidents[id].run) <==> Failing(s, s.db.incidents[id].run))
  {
    hide RowOk, Sound, Failing;
    forall id | id in s.db.incidents
      ensures id in n.db.incidents && (Sound(n, n.db.incidents[id].run) <==> Sound(s, s.db.incidents[id].run))
      ensures Failing(n, n.db.incidents[id].run) <==> Failing(s, s.db.incidents[id].run)
    {
      assert RowOk(s, id);
      OwnerIsSettled(s, n, id);
    }
  }

  /** Tables with at most one row more, and its notice. */
  lemma NoticesExtend(s: State, n: State, notice: Option<Notice>)
    requires NoticesOk(s)
    requires forall id | id in s.db.incidents ::
               && id in n.db.incidents && (Sound(n, n.db.incidents[id].run) <==> Sound(s, s.db.incidents[id].run))
               && (Failing(n, n.db.incidents[id].run) <==> Failing(s, s.db.incidents[id].run))
    requires notice.None? ==> n.db.notices == s.db.notices && n.db.incidents.Keys == s.db.incidents.Keys
    requires notice.Some? ==>
               var id := notice.value.id;
               && n.db.notices == s.db.notices + [notice.value]
               && id !in s.db.incidents && n.db.incidents.Keys == s.db.incidents.Keys + {id}
               && (Sound(n, n.db.incidents[id].run) <==> notice.value.Created?)
               && (Failing(n, n.db.incidents[id].run) <==> notice.value.FailedAtOnce?)
    ensures NoticesOk(n)
  {
    hide Sound, Failing;
    assert notice.Some? ==> notice.value !in s.db.notices;
    assert forall id :: id in n.db.incidents.Keys <==> id in n.db.incidents;
    assert forall id :: id in s.db.incidents.Keys <==> id in s.db.incidents;
  }

  lemma StepKeepsNotices(s: State, e: Event)
    requires Enabled(s, e) && Valid(s)
    ensures NoticesOk(Apply(s, e))
  {
    hide Enabled, Apply, RunsOk, PairsOk, ThreadsOk, RowsOk, ApprovalsOk, UsageOk, NoticesOk, Sound, Failing, Grows;
    StepGrows(s, e);
    NoticesCome(s, e);
    OwnersAreSettled(s, Apply(s, e));
    if e.Insert? || e.InsertFailed? {
      NewRowsOwner(s, e);
    }
    NoticesExtend(s, Apply(s, e), NewNotice(s, e));
  }

  lemma StepKeepsValid(s: State, e: Event)
    requires Enabled(s, e) && Valid(s)
    ensures Valid(Apply(s, e))
  {
    hide Enabled, Apply, ThreadsOk, RowsOk, RunsOk, PairsOk, NoticesOk, UsageOk, ApprovalsOk;
    StepKeepsThreads(s, e);
    StepKeepsRows(s, e);
    StepKeepsRuns(s, e);
    StepKeepsPairs(s, e);
    StepKeepsNotices(s, e);
    StepKeepsUsage(s, e);
    StepKeepsApprovals(s, e);
  }

  lemma {:induction false} RunKeepsValid(s: State, events: seq<Event>)
    requires IsRun(s, events) && Valid(s)
    ensures Valid(After(s, events))
    decreases |events|
  {
    if events != [] {
      hide Valid, Enabled, Apply;
      StepKeepsValid(s, events[0]);
      RunKeepsValid(Apply(s, events[0]), events[1..]);
    }
  }

  lemma EveryReachableState(events: seq<Event>)
    requires IsRun(EMPTY, events)
    ensures Valid(After(EMPTY, events))
  {
    assert Valid(EMPTY);
    hide Valid;
    RunKeepsValid(EMPTY, events);
  }

  // ---- what the protocol promises ----

  lemma OneFirst(s: State, i: nat, j: nat)
    requires PairsOk(s) && i < |s.runs| && j < |s.runs| && s.runs[i].thread == s.runs[j].thread
    requires s.runs[i].resumed.None? && s.runs[j].resumed.None?
    ensures i == j
  {
  }

  /** In every reachable state, whatever died and whatever was approved twice: all rows of a run whose
      diagnosis succeeded are the one whose id is the run's thread id, and it is there from the insert on.
      A run whose diagnosis failed has at most one row, under an id that is no thread's. */
  lemma OneRowPerRun(events: seq<Event>, t: Id)
    requires IsRun(EMPTY, events) && t in After(EMPTY, events).threads
    ensures var s := After(EMPTY, events);
            if Failing(s, t) then
              forall a, b | a in s.db.incidents && b in s.db.incidents
                && s.db.incidents[a].run == s.db.incidents[b].run == t ::
                a == b && a !in s.threads
            else
              && (forall a | a in s.db.incidents && s.db.incidents[a].run == t :: a == t)
              && (t in s.db.incidents ==> s.db.incidents[t].run == t)
              && forall run | run in s.runs && run.thread == t
                 && (run.progress in {Inserted, Recorded} || PastGate(run.at.next)) ::
                   t in s.db.incidents
  {
    EveryReachableState(events);
    var s := After(EMPTY, events);
    assert forall id | id in s.db.incidents :: RowOk(s, id);
    assert forall run | run in s.runs :: RunOk(s, run);
    if Failing(s, t) {
      forall a, b | a in s.db.incidents && b in s.db.incidents && s.db.incidents[a].run == s.db.incidents[b].run == t
        ensures a == b && a !in s.threads
      {
        var i :| 0 <= i < |s.runs| && s.runs[i].thread == t && s.runs[i].at.incident == a;
        var j :| 0 <= j < |s.runs| && s.runs[j].thread == t && s.runs[j].at.incident == b;
        assert RunOk(s, s.runs[i]) && RunOk(s, s.runs[j]);
        OneFirst(s, i, j);
      }
    }
  }

  /** No notice is ever sent twice, and "created" is sent for exactly the incidents of the runs whose
      diagnosis succeeded. */
  lemma OneNoticePerIncident(events: seq<Event>)
    requires IsRun(EMPTY, events)
    ensures var s := After(EMPTY, events);
            && (forall j, k | 0 <= j < k < |s.db.notices| :: s.db.notices[j] != s.db.notices[k])
            && forall id :: Created(id) in s.db.notices <==> id in s.db.incidents && Sound(s, s.db.incidents[id].run)
  {
    EveryReachableState(events);
    hide IsRun, After, ThreadsOk, RowsOk, RunsOk, PairsOk, UsageOk, ApprovalsOk;
  }

  lemma ReplayAddsNothingTo(s: State, i: nat, severity: Severity, options: seq<nat>, tokens: nat)
    requires Valid(s) && Enabled(s, Insert(i, severity, options, tokens)) && s.runs[i].resumed.Some?
    ensures Apply(s, Insert(i, severity, options, tokens)).db == s.db
  {
    assert RunOk(s, s.runs[i]);
    assert s.approved[s.runs[i].resumed.value.approval] in s.approved;
    hide ThreadsOk, RowsOk, RunsOk, PairsOk, UsageOk, NoticesOk;
  }

  /** In every reachable state: the gate node of a resumed run inserts nothing and notifies nobody. */
  lemma ReplayAddsNothing(events: seq<Event>, i: nat, severity: Severity, options: seq<nat>, tokens: nat)
    requires IsRun(EMPTY, events) && Enabled(After(EMPTY, events), Insert(i, severity, options, tokens))
    requires After(EMPTY, events).runs[i].resumed.Some?
    ensures Apply(After(EMPTY, events), Insert(i, severity, options, tokens)).db == After(EMPTY, events).db
  {
    hide Valid, Apply;
    EveryReachableState(events);
    ReplayAddsNothingTo(After(EMPTY, events), i, severity, options, tokens);
  }

  lemma CheckpointIsThere(s: State, k: nat)
    requires Valid(s) && Enabled(s, Resume(k))
    ensures var t := s.approved[k].0;
            && t in s.threads && s.threads[t].next != Diagnose && !s.threads[t].error
            && s.threads[t].incident == t && t in s.db.incidents
  {
    assert s.approved[k] in s.approved;
    assert ThreadOk(s, s.approved[k].0);
    hide RowsOk, RunsOk, PairsOk, UsageOk, NoticesOk;
  }

  /** In every reachable state: a resume finds, under the id that was approved, the checkpoint of a run
      that got as far as the gate without failing. The graph never starts afresh under an incident's id. */
  lemma ResumeFindsItsRun(events: seq<Event>, k: nat)
    requires IsRun(EMPTY, events) && Enabled(After(EMPTY, events), Resume(k))
    ensures var s := After(EMPTY, events);
            var t := s.approved[k].0;
            && t in s.threads && Loaded(s, t) == s.threads[t] && s.threads[t].next != Diagnose && !s.threads[t].error
            && s.threads[t].incident == t && t in s.db.incidents
  {
    hide Valid;
    EveryReachableState(events);
    CheckpointIsThere(After(EMPTY, events), k);
  }

  /** The tools are called only by a resume, with an option that was approved under that very id and is
      not a hold, namely its own unless it took the graph up behind the gate; and no two resumes come
      from the same approval. */
  lemma OnlyApprovedOptionsRun(events: seq<Event>, i: nat)
    requires IsRun(EMPTY, events) && i < |After(EMPTY, events).runs| && After(EMPTY, events).runs[i].executed.Some?
    ensures var s := After(EMPTY, events);
            var run := s.runs[i];
            && !run.executed.value.Hold? && (run.thread, run.executed.value) in s.approved
            && run.resumed.Some? && run.resumed.value.approval < |s.approved|
            && s.approved[run.resumed.value.approval] == (run.thread, run.resumed.value.choice)
            && (run.resumed.value.loaded.Gate? ==> run.executed == Some(run.resumed.value.choice))
            && forall j | 0 <= j < |s.runs| && j != i && s.runs[j].resumed.Some? ::
                 s.runs[j].resumed.value.approval != run.resumed.value.approval
  {
    EveryReachableState(events);
    var s := After(EMPTY, events);
    assert RunOk(s, s.runs[i]);
    assert forall j | 0 <= j < i :: PairOk(s.runs[j], s.runs[i]);
    assert forall j | i < j < |s.runs| :: PairOk(s.runs[i], s.runs[j]);
    hide IsRun, After, ThreadsOk, RowsOk, RunsOk, NoticesOk, UsageOk, ApprovalsOk, PairsOk;
  }

  // ---- counting ----

  lemma {:induction false} InjectionBounds<T>(a: set<nat>, b: set<T>, f: map<nat, T>)
    requires f.Keys == a && (forall x | x in a :: f[x] in b) && forall x, y | x in a && y in a && x != y :: f[x] != f[y]
    ensures |a| <= |b|
  {
    if a != {} {
      var x :| x in a;
      InjectionBounds(a - {x}, b - {f[x]}, map y | y in a - {x} :: f[y]);
    }
  }

  function Calls(s: State, t: Id): set<nat> {
    set i | 0 <= i < |s.runs| && s.runs[i].thread == t && s.runs[i].executed.Some?
  }

  function Charges(s: State, t: Id): set<nat> {
    set u | 0 <= u < |s.usage| && s.usage[u].0 == t
  }

  function Approvals(s: State, t: Id): set<nat> {
    set k | 0 <= k < |s.approved| && s.approved[k].0 == t && !s.approved[k].1.Hold?
  }

  /** What counting needs of the invocations: approvals are told apart by the resumes they make. */
  ghost predicate Countable(s: State) {
    && (forall i | 0 <= i < |s.runs| ::
          && (s.runs[i].executed.Some? ==> s.runs[i].resumed.Some?)
          && (s.runs[i].resumed.Some? ==> s.runs[i].resumed.value.approval in Approvals(s, s.runs[i].thread)))
    && (forall i, j | 0 <= i < j < |s.runs| :: PairOk(s.runs[i], s.runs[j]))
    && (forall u | 0 <= u < |s.usage| :: s.usage[u].1 < |s.runs| && s.runs[s.usage[u].1].thread == s.usage[u].0)
    && (forall u, v | 0 <= u < v < |s.usage| :: s.usage[u].1 != s.usage[v].1)
  }

  lemma ValidIsCountable(s: State)
    requires Valid(s)
    ensures Countable(s)
  {
    assert forall i | 0 <= i < |s.runs| :: RunOk(s, s.runs[i]);
    hide ThreadsOk, RowsOk, RunsOk, NoticesOk, ApprovalsOk;
  }

  lemma CallsCounted(s: State, t: Id)
    requires Countable(s)
    ensures |Calls(s, t)| <= |Approvals(s, t)|
  {
    var f := map i | i in Calls(s, t) :: s.runs[i].resumed.value.approval;
    forall i, j | i in Calls(s, t) && j in Calls(s, t) && i != j ensures f[i] != f[j] {
      var a, b := if i < j then i else j, if i < j then j else i;
      assert PairOk(s.runs[a], s.runs[b]);
    }
    InjectionBounds(Calls(s, t), Approvals(s, t), f);
  }

  /** The resume behind an invocation, None for the first of its thread. */
  function Source(run: Invocation): Option<nat> {
    if run.resumed.None? then None else Some(run.resumed.value.approval)
  }

  lemma SourcesDiffer(s: State, i: nat, j: nat)
    requires Countable(s) && i < |s.runs| && j < |s.runs| && i != j && s.runs[i].thread == s.runs[j].thread
    ensures Source(s.runs[i]) != Source(s.runs[j])
  {
    var a, b := if i < j then i else j, if i < j then j else i;
    assert PairOk(s.runs[a], s.runs[b]);
  }

  lemma ChargesCounted(s: State, t: Id)
    requires Countable(s)
    ensures |Charges(s, t)| <= 1 + |Approvals(s, t)|
  {
    var somes := set k | k in Approvals(s, t) :: Some(k);
    var f := map u | u in Charges(s, t) :: Source(s.runs[s.usage[u].1]);
    forall u, v | u in Charges(s, t) && v in Charges(s, t) && u != v ensures f[u] != f[v] {
      assert s.usage[u].1 != s.usage[v].1;
      SourcesDiffer(s, s.usage[u].1, s.usage[v].1);
    }
    InjectionBounds(Charges(s, t), somes + {None}, f);
    SomesCount(Approvals(s, t), somes);
  }

  /** The tools are called for an incident at most as often as it was approved, and it is charged at
      most once more than that. */
  lemma CallsAndChargesPerApproval(events: seq<Event>, t: Id)
    requires IsRun(EMPTY, events)
    ensures |Calls(After(EMPTY, events), t)| <= |Approvals(After(EMPTY, events), t)|
    ensures |Charges(After(EMPTY, events), t)| <= 1 + |Approvals(After(EMPTY, events), t)|
  {
    hide Countable, Valid, Calls, Charges, Approvals;
    EveryReachableState(events);
    ValidIsCountable(After(EMPTY, events));
    CallsCounted(After(EMPTY, events), t);
    ChargesCounted(After(EMPTY, events), t);
  }

  /** Over every run: an invocation has a usage row exactly when it goes through the gate, its diagnosis
      did not fail, and it has got past recording. */
  lemma ChargedExactlyWhen(events: seq<Event>, i: nat)
    requires IsRun(EMPTY, events) && i < |After(EMPTY, events).runs|
    ensures var s := After(EMPTY, events); HasUsage(s, i) <==> Charged(s.runs[i])
  {
    hide Charged;
    EveryReachableState(events);
  }

  function ChargedRuns(s: State, t: Id): set<nat> {
    set i | 0 <= i < |s.runs| && s.runs[i].thread == t && Charged(s.runs[i])
  }

  ghost function UsageRow(s: State, i: nat): (u: nat)
    requires HasUsage(s, i)
    ensures u < |s.usage| && s.usage[u].1 == i
  {
    var u :| 0 <= u < |s.usage| && s.usage[u].1 == i; u
  }

  lemma OneRowPerCharge(s: State, t: Id)
    requires UsageOk(s)
    ensures |Charges(s, t)| == |ChargedRuns(s, t)|
  {
    hide Charged, HasUsage;
    InjectionBounds(Charges(s, t), ChargedRuns(s, t), map u | u in Charges(s, t) :: s.usage[u].1);
    var f := map i | i in ChargedRuns(s, t) :: UsageRow(s, i);
    InjectionBounds(ChargedRuns(s, t), Charges(s, t), f);
  }

  lemma OneElement(a: set<nat>, x: nat)
    requires x in a
    ensures |a| == 1 <==> a == {x}
  {
    assert |a - {x}| == |a| - 1;
    assert a == a - {x} + {x};
  }

  /** Over every run: an incident whose first invocation got past recording is charged exactly once
      exactly when no resume that took the graph up at the gate has got past recording. */
  lemma ChargedOnceExactlyWhen(events: seq<Event>, first: nat)
    requires IsRun(EMPTY, events) && first < |After(EMPTY, events).runs|
    requires After(EMPTY, events).runs[first].resumed.None? && Charged(After(EMPTY, events).runs[first])
    ensures var s := After(EMPTY, events);
            var t := s.runs[first].thread;
            |Charges(s, t)| == 1 <==>
              forall j | 0 <= j < |s.runs| && s.runs[j].thread == t && s.runs[j].resumed.Some?
                && s.runs[j].resumed.value.loaded.Gate? ::
                BeforeRecord(s.runs[j])
  {
    hide IsRun, After, Charged;
    EveryReachableState(events);
    var s := After(EMPTY, events);
    var t := s.runs[first].thread;
    OneRowPerCharge(s, t);
    OneElement(ChargedRuns(s, t), first);
    hide Charges;
    forall j | 0 <= j < |s.runs| && s.runs[j].thread == t && j != first
      ensures s.runs[j].resumed.Some?
      ensures Charged(s.runs[j]) <==> s.runs[j].resumed.value.loaded.Gate? && !BeforeRecord(s.runs[j])
    {
      LaterIsCharged(s, first, j);
    }
    hide Valid, BeforeRecord;
    if j :| 0 <= j < |s.runs| && s.runs[j].thread == t && j != first && Charged(s.runs[j]) {
      assert j in ChargedRuns(s, t);
    } else {
      assert ChargedRuns(s, t) == {first};
    }
  }

  lemma LaterIsCharged(s: State, first: nat, j: nat)
    requires RunsOk(s) && PairsOk(s) && first < |s.runs| && j < |s.runs| && j != first
    requires s.runs[first].resumed.None? && s.runs[j].thread == s.runs[first].thread
    ensures s.runs[j].resumed.Some?
    ensures Charged(s.runs[j]) <==> s.runs[j].resumed.value.loaded.Gate? && !BeforeRecord(s.runs[j])
  {
    assert RunOk(s, s.runs[j]);
    if s.runs[j].resumed.None? {
      OneFirst(s, first, j);
    }
    hide RunsOk, PairsOk, FailingOk, SoundOk, BeforeRecord;
  }

  lemma {:induction false} SomesCount(a: set<nat>, somes: set<Option<nat>>)
    requires somes == set k | k in a :: Some(k)
    ensures |somes| == |a|
  {
    if a != {} {
      var x :| x in a;
      SomesCount(a - {x}, somes - {Some(x)});
    }
  }

  lemma {:induction false} OneMore(s: State, events: seq<Event>, e: Event)
    requires IsRun(s, events) && Enabled(After(s, events), e)
    ensures IsRun(s, events + [e]) && After(s, events + [e]) == Apply(After(s, events), e)
    decreases |events|
  {
    hide Enabled, Apply;
    if events != [] {
      OneMore(Apply(s, events[0]), events[1..], e);
      assert (events + [e])[1..] == events[1..] + [e];
    } else {
      assert [e][1..] == [];
    }
  }

  ghost predicate Reached(events: seq<Event>, s: State) {
    IsRun(EMPTY, events) && After(EMPTY, events) == s
  }

  lemma Then(events: seq<Event>, s: State, e: Event) returns (events': seq<Event>, s': State)
    requires Reached(events, s) && Enabled(s, e)
    ensures s' == Apply(s, e) && Reached(events', s')
  {
    OneMore(EMPTY, events, e);
    events', s' := events + [e], Apply(s, e);
  }

  /** A run that has paused at the gate, charged once. */
  lemma PausedRun() returns (events: seq<Event>, s: State)
    ensures Reached(events, s) && s.threads == map[0 := Checkpoint(Gate, false, 0, None, false)] && |s.runs| == 1
    ensures s.db.incidents == map[0 := Incident(Pending, Notifications.Medium, [7], None, 100, 0)]
            && s.usage == [(0, 0)] && s.approved == [] && s.taken == {}
  {
    events, s := [], EMPTY;
    assert Reached(events, s);
    hide Reached;
    events, s := Then(events, s, Start(0));
    events, s := Then(events, s, Diagnosed(0, false));
    events, s := Then(events, s, Insert(0, Notifications.Medium, [7], 100));
    events, s := Then(events, s, Record(0));
    events, s := Then(events, s, Interrupt(0));
  }

  /** The bound is reached: the gate charges before it pauses, so one approval makes two charges. */
  lemma ResumeChargesAgain() returns (events: seq<Event>)
    ensures IsRun(EMPTY, events) && |Approvals(After(EMPTY, events), 0)| == 1 && |Charges(After(EMPTY, events), 0)| == 2
  {
    hide Approvals, Charges, IsRun, After;
    var s: State;
    events, s := PausedRun();
    assert Reached(events, s);
    hide Reached;
    events, s := Then(events, s, Check(0, Pick(7)));
    events, s := Then(events, s, Approve(0, Pick(7)));
    events, s := Then(events, s, Resume(0));
    events, s := Then(events, s, Insert(1, Notifications.Medium, [7], 100));
    events, s := Then(events, s, Record(1));
    TwoCharges(s);
    ReachedMeans(events, s);
  }

  lemma ReachedMeans(events: seq<Event>, s: State)
    requires Reached(events, s)
    ensures IsRun(EMPTY, events) && After(EMPTY, events) == s
  {
  }

  lemma TwoCharges(s: State)
    requires s.usage == [(0, 0), (0, 1)] && s.approved == [(0, Pick(7))]
    ensures |Approvals(s, 0)| == 1 && |Charges(s, 0)| == 2
  {
    assert Charges(s, 0) == {0, 1} && Approvals(s, 0) == {0};
  }

  // ---- runs whose diagnosis failed ----

  lemma FailedIncidentIsIts(s: State, i: nat)
    requires Valid(s) && Enabled(s, Finish(i)) && s.runs[i].at.error
    ensures !s.runs[i].at.held && s.runs[i].executed.None?
    ensures var id := s.runs[i].at.incident; id in s.db.incidents && s.db.incidents[id].run == s.runs[i].thread
  {
    assert RunOk(s, s.runs[i]);
    hide ThreadsOk, RowsOk, RunsOk, PairsOk, UsageOk, NoticesOk, ApprovalsOk;
  }

  /** In every reachable state: a run whose diagnosis failed, when it completes, marks its own failed
      incident executed, without having called the tools. */
  lemma FailedIncidentEndsExecuted(events: seq<Event>, i: nat)
    requires IsRun(EMPTY, events) && Enabled(After(EMPTY, events), Finish(i)) && After(EMPTY, events).runs[i].at.error
    ensures After(EMPTY, events).runs[i].executed.None?
    ensures var s := After(EMPTY, events);
            var id := s.runs[i].at.incident;
            && id in s.db.incidents && s.db.incidents[id].run == s.runs[i].thread
            && id in Apply(s, Finish(i)).db.incidents && Apply(s, Finish(i)).db.incidents[id].status == Executed
  {
    hide Valid;
    EveryReachableState(events);
    FailedIncidentIsIts(After(EMPTY, events), i);
  }

  /** The one invocation of a failing thread stands where the thread's checkpoint says. */
  ghost predicate InStep(s: State) {
    forall i | 0 <= i < |s.runs| && s.runs[i].at.error ::
      s.runs[i].thread in s.threads && s.threads[s.runs[i].thread].next == s.runs[i].at.next
  }

  lemma SaveKeepsInStep(s: State, e: Event)
    requires Enabled(s, e) && Saves(e) && RunsOk(s) && PairsOk(s) && InStep(s)
    ensures InStep(Apply(s, e))
  {
    hide Checked, Loaded, IsApproved;
    assert RunOk(s, s.runs[e.i]);
    forall j | 0 <= j < |s.runs| && s.runs[j].at.error && s.runs[j].thread == s.runs[e.i].thread ensures j == e.i {
      assert RunOk(s, s.runs[j]);
      OneFirst(s, j, e.i);
    }
    hide RunsOk, PairsOk;
  }

  lemma StepKeepsInStep(s: State, e: Event)
    requires Enabled(s, e) && RunsOk(s) && PairsOk(s) && ThreadsOk(s) && InStep(s)
    ensures InStep(Apply(s, e))
  {
    hide Checked, IsApproved, PairsOk;
    if Saves(e) {
      SaveKeepsInStep(s, e);
      hide Apply, Enabled;
    }
  }

  /** The incident of a failing run is failed exactly until the run is at its end. */
  ghost predicate FailedTillEnd(s: State, id: Id) {
    id in s.db.incidents && Failing(s, s.db.incidents[id].run) ==>
      (s.db.incidents[id].status == Failed <==> s.threads[s.db.incidents[id].run].next != End)
  }

  /** The incident of a failing run is no thread's, and nobody approves it. */
  lemma FailedRowIsNoThreads(s: State, id: Id)
    requires RowsOk(s) && ApprovalsOk(s) && id in s.db.incidents && Failing(s, s.db.incidents[id].run)
    ensures id !in s.threads && forall choice :: (id, choice) !in s.checked
  {
    assert RowOk(s, id);
    forall choice ensures (id, choice) !in s.checked {
      assert (id, choice) in s.checked ==> Sound(s, (id, choice).0);
    }
  }

  /** Only its own invocation acts on it. */
  lemma FailedRowIsItsOwn(s: State, id: Id, i: nat)
    requires RowsOk(s) && RunsOk(s) && PairsOk(s) && i < |s.runs|
    requires id in s.db.incidents && Failing(s, s.db.incidents[id].run)
    ensures !s.runs[i].at.error ==> s.runs[i].at.incident != id && s.runs[i].thread != s.db.incidents[id].run
    ensures s.runs[i].at.error && s.runs[i].thread == s.db.incidents[id].run ==> s.runs[i].at.incident == id
    ensures s.runs[i].at.error && PastGate(s.runs[i].at.next) && s.runs[i].at.incident == id ==>
              s.runs[i].thread == s.db.incidents[id].run
  {
    assert RowOk(s, id) && RunOk(s, s.runs[i]);
    var j :| 0 <= j < |s.runs| && s.runs[j].thread == s.db.incidents[id].run && s.runs[j].at.incident == id;
    assert RunOk(s, s.runs[j]);
    if s.runs[i].at.error && s.runs[i].thread == s.db.incidents[id].run {
      OneFirst(s, i, j);
    }
    hide RunsOk, RowsOk, PairsOk;
  }

  /** No step but the last of a graph begins or ends at its end. */
  lemma EndIsLast(s: State, e: Event)
    requires Enabled(s, e) && Saves(e)
    ensures var i := e.i; var n := Apply(s, e);
            && s.runs[i].at.next != End
            && (!e.Finish? && n.runs[i].alive ==> n.threads[s.runs[i].thread].next == n.runs[i].at.next != End)
            && (!n.runs[i].alive ==> n.threads == s.threads)
            && (e.Finish? ==> n.threads[s.runs[i].thread].next == End)
  {
    hide Checked, Loaded;
  }

  lemma FinishedRow(s: State, e: Event, id: Id)
    requires Enabled(s, e) && e.Finish? && s.runs[e.i].at.incident == id && id in s.db.incidents
             && !s.runs[e.i].at.held
    ensures id in Apply(s, e).db.incidents && Apply(s, e).db.incidents[id] == s.db.incidents[id].(status := Executed)
  {
  }

  /** Of all steps but closing it, only the last of its own run touches the incident of a failing run. */
  lemma OnlyItsFinishTouches(s: State, e: Event, id: Id)
    requires Enabled(s, e) && Valid(s) && id in s.db.incidents && Failing(s, s.db.incidents[id].run)
    requires Touched(s, e) == Some(id) && !e.Close?
    ensures e.Finish? && s.runs[e.i].thread == s.db.incidents[id].run && !s.runs[e.i].at.held
  {
    FailedRowIsNoThreads(s, id);
    if e.Finish? || e.RaiseInResume? {
      FailedRowIsItsOwn(s, id, e.i);
      assert RunOk(s, s.runs[e.i]);
    }
    hide RowsOk, RunsOk, PairsOk, ThreadsOk, UsageOk, NoticesOk, ApprovalsOk, IsApproved;
  }

  lemma SavesItsOwn(s: State, e: Event, id: Id)
    requires Enabled(s, e) && Valid(s) && InStep(s) && id in s.db.incidents && Failing(s, s.db.incidents[id].run)
    requires Saves(e) && s.runs[e.i].thread == s.db.incidents[id].run
    ensures s.runs[e.i].at.incident == id && s.threads[s.runs[e.i].thread].next == s.runs[e.i].at.next
  {
    FailedRowIsItsOwn(s, id, e.i);
    hide Valid, RowsOk, RunsOk, PairsOk, ThreadsOk, UsageOk, NoticesOk, ApprovalsOk;
  }

  lemma OldRowTillEnd(s: State, e: Event, id: Id)
    requires Enabled(s, e) && Valid(s) && InStep(s) && FailedTillEnd(s, id) && id in s.db.incidents
    requires Failing(s, s.db.incidents[id].run) && !(e.Close? && e.id == id)
    ensures FailedTillEnd(Apply(s, e), id)
  {
    hide Enabled, Apply, Valid, InStep;
    var t := s.db.incidents[id].run;
    OtherThreadsStay(s, e, t);
    if Touched(s, e) == Some(id) {
      OnlyItsFinishTouches(s, e, id);
      FinishedRow(s, e, id);
      EndIsLast(s, e);
    } else {
      OthersUntouched(s, e, id);
      if Saves(e) && s.runs[e.i].thread == t {
        SavesItsOwn(s, e, id);
        EndIsLast(s, e);
      }
    }
  }

  /** The checkpoint of a known thread changes only when an invocation of its own saves it. */
  lemma OtherThreadsStay(s: State, e: Event, t: Id)
    requires Enabled(s, e) && t in s.threads
    ensures t in Apply(s, e).threads
    ensures Saves(e) ==> e.i < |s.runs| && e.i < |Apply(s, e).runs|
    ensures !(Saves(e) && s.runs[e.i].thread == t) ==> Apply(s, e).threads[t] == s.threads[t]
  {
  }

  lemma NewRowTillEnd(s: State, e: Event, id: Id)
    requires Enabled(s, e) && Valid(s) && InStep(s) && id !in s.db.incidents
    ensures FailedTillEnd(Apply(s, e), id)
  {
    var n := Apply(s, e);
    if id in n.db.incidents {
      NewRow(s, e, id);
      assert RunOk(s, s.runs[e.i]);
      assert n.db.incidents[id].run == s.runs[e.i].thread;
      assert e.InsertFailed? ==>
        n.db.incidents[id].status == Failed && s.runs[e.i].at.error && n.threads == s.threads
          && s.runs[e.i].at.next == Gate;
      assert e.Insert? ==> n.threads == s.threads;
    }
    hide Enabled, Apply, Valid, RunsOk, RowsOk;
  }

  lemma StepKeepsFailed(s: State, e: Event, id: Id)
    requires Enabled(s, e) && Valid(s) && InStep(s) && FailedTillEnd(s, id) && !(e.Close? && e.id == id)
    ensures FailedTillEnd(Apply(s, e), id)
  {
    if id !in s.db.incidents {
      NewRowTillEnd(s, e, id);
    } else if Failing(s, s.db.incidents[id].run) {
      OldRowTillEnd(s, e, id);
    } else {
      assert RowOk(s, id);
      StepGrows(s, e);
    }
    hide Enabled, Apply, RowsOk, RunsOk;
  }

  lemma {:induction false} RunKeepsFailed(s: State, events: seq<Event>, id: Id)
    requires IsRun(s, events) && Valid(s) && InStep(s) && FailedTillEnd(s, id)
    requires forall k | 0 <= k < |events| :: !(events[k].Close? && events[k].id == id)
    ensures Valid(After(s, events)) && FailedTillEnd(After(s, events), id)
    decreases |events|
  {
    if events != [] {
      hide Enabled, Apply, InStep, FailedTillEnd, ThreadsOk, RowsOk, RunsOk, PairsOk, NoticesOk, UsageOk, ApprovalsOk;
      StepKeepsValid(s, events[0]);
      StepKeepsInStep(s, events[0]);
      StepKeepsFailed(s, events[0], id);
      RunKeepsFailed(Apply(s, events[0]), events[1..], id);
    }
  }

  /** Over every run in which nobody closes it: the incident of a run whose diagnosis failed has status
      failed exactly as long as that run is not at its end. */
  lemma FailedExactlyTillEnd(events: seq<Event>, id: Id)
    requires IsRun(EMPTY, events) && forall k | 0 <= k < |events| :: !(events[k].Close? && events[k].id == id)
    requires var s := After(EMPTY, events); id in s.db.incidents && Failing(s, s.db.incidents[id].run)
    ensures var s := After(EMPTY, events);
            s.db.incidents[id].status == Failed <==> s.threads[s.db.incidents[id].run].next != End
  {
    hide IsRun, After;
    RunKeepsFailed(EMPTY, events, id);
  }

  /** Such a run: nothing else happens, and the failed incident is executed. */
  lemma FailedRunEndsExecuted() returns (events: seq<Event>)
    ensures IsRun(EMPTY, events)
    ensures var s := After(EMPTY, events);
            1 in s.db.incidents
            && s.db.incidents[1] == Incident(Executed, Notifications.Medium, [], None, 0, 0) && Failing(s, 0)
  {
    var s: State;
    events, s := [], EMPTY;
    assert Reached(events, s);
    hide Reached;
    events, s := Then(events, s, Start(0));
    events, s := Then(events, s, Diagnosed(0, true));
    events, s := Then(events, s, InsertFailed(0, 1));
    events, s := Then(events, s, LeaveFailedGate(0));
    events, s := Then(events, s, SkipOption(0));
    events, s := Then(events, s, Finish(0));
    ReachedMeans(events, s);
  }
}
